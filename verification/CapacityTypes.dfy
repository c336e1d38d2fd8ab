/** Values shared by the capacity ledger: purposes, amounts, inventories, journal bindings. */
module CapacityTypes {

  datatype Option<+T> = None | Some(value: T)

  /** The four roots the ledger may account for. */
  datatype Purpose = PrivateJournal | TemporaryContainment | RetainedUncertain | PromotedAssets

  /** One value for each purpose. */
  datatype PerPurpose<T> = PerPurpose(journal: T, temporary: T, retained: T, promoted: T) {
    function At(p: Purpose): T {
      match p
      case PrivateJournal => journal
      case TemporaryContainment => temporary
      case RetainedUncertain => retained
      case PromotedAssets => promoted
    }

    function With(p: Purpose, value: T): PerPurpose<T> {
      match p
      case PrivateJournal => this.(journal := value)
      case TemporaryContainment => this.(temporary := value)
      case RetainedUncertain => this.(retained := value)
      case PromotedAssets => this.(promoted := value)
    }
  }

  const PURPOSES: seq<Purpose> := [PrivateJournal, TemporaryContainment, RetainedUncertain, PromotedAssets]

  datatype Amount = Amount(bytes: int, entries: int) {
    function Plus(other: Amount): Amount { Amount(bytes + other.bytes, entries + other.entries) }
    function Minus(other: Amount): Amount { Amount(bytes - other.bytes, entries - other.entries) }
    predicate Within(bound: Amount) { bytes <= bound.bytes && entries <= bound.entries }
    predicate Natural() { 0 <= bytes && 0 <= entries }
  }

  const ZERO := Amount(0, 0)
  const NOTHING: PerPurpose<Amount> := PerPurpose(ZERO, ZERO, ZERO, ZERO)

  function Added(a: PerPurpose<Amount>, b: PerPurpose<Amount>): PerPurpose<Amount> {
    PerPurpose(a.journal.Plus(b.journal), a.temporary.Plus(b.temporary),
               a.retained.Plus(b.retained), a.promoted.Plus(b.promoted))
  }

  function Removed(a: PerPurpose<Amount>, b: PerPurpose<Amount>): PerPurpose<Amount> {
    PerPurpose(a.journal.Minus(b.journal), a.temporary.Minus(b.temporary),
               a.retained.Minus(b.retained), a.promoted.Minus(b.promoted))
  }

  function TotalBytes(a: PerPurpose<Amount>): int {
    a.journal.bytes + a.temporary.bytes + a.retained.bytes + a.promoted.bytes
  }

  function TotalEntries(a: PerPurpose<Amount>): int {
    a.journal.entries + a.temporary.entries + a.retained.entries + a.promoted.entries
  }

  predicate AllNatural(a: PerPurpose<Amount>) {
    a.journal.Natural() && a.temporary.Natural() && a.retained.Natural() && a.promoted.Natural()
  }

  predicate AllWithin(a: PerPurpose<Amount>, bound: PerPurpose<Amount>) {
    && a.journal.Within(bound.journal) && a.temporary.Within(bound.temporary)
    && a.retained.Within(bound.retained) && a.promoted.Within(bound.promoted)
  }

  const JOURNAL_BYTES := 1048576
  const JOURNAL_LIVE_BYTES := 2 * JOURNAL_BYTES
  const ASSET_BYTES := 268435456
  const MAX_OPERATION_BYTES := ASSET_BYTES + JOURNAL_BYTES
  const MAX_ROOT_FILE_BYTES := MAX_OPERATION_BYTES
  const MAX_INVENTORY_ENTRIES := 256
  const MAX_OPERATION_ENTRIES := 400
  const MAX_ASSET_ENTRIES := 16
  const DUAL_CUSTODY_ENTRIES := 32
  const MAX_JOURNAL_ENTRIES := 300
  const MAX_FREE_BYTES := 0x7FFF_FFFF_FFFF_FFFF

  /** Policy ceilings, and whether the Profile A dual-custody policy replaces the generic asset entry caps. */
  datatype Limits = Limits(
    journalBytes: int, assetBytes: int, retainedBytes: int,
    journalEntries: int, assetEntries: int, retainedEntries: int, dualCustody: bool)
  {
    predicate Valid() {
      && 0 < journalBytes <= JOURNAL_BYTES && 0 < assetBytes <= ASSET_BYTES && 0 < retainedBytes <= ASSET_BYTES
      && 0 < journalEntries <= MAX_JOURNAL_ENTRIES && 0 < assetEntries <= MAX_ASSET_ENTRIES
      && 0 < retainedEntries <= MAX_INVENTORY_ENTRIES
      && (dualCustody ==> assetBytes == ASSET_BYTES && assetEntries == MAX_ASSET_ENTRIES)
    }

    function ByteLimit(p: Purpose): int {
      match p
      case PrivateJournal => journalBytes
      case RetainedUncertain => retainedBytes
      case _ => assetBytes
    }

    function EntryLimit(p: Purpose): int {
      match p
      case PrivateJournal => journalEntries
      case RetainedUncertain => retainedEntries
      case _ => if dualCustody then MAX_ASSET_ENTRIES else assetEntries
    }

    function For(p: Purpose): Amount { Amount(ByteLimit(p), EntryLimit(p)) }

    function SharedEntryLimit(): int { if dualCustody then DUAL_CUSTODY_ENTRIES else assetEntries }
  }

  predicate Fits(current: int, amount: int, limit: int) {
    0 <= amount && current <= limit && amount <= limit - current
  }

  type Identity = (nat, nat)

  /** One observed file: native identity, size, access-control fingerprint. */
  datatype Row = Row(identity: Identity, size: int, acl: nat)

  type Directory = map<string, Row>
  type Inventory = PerPurpose<Directory>

  /** Sum of the sizes of a directory's files. */
  ghost function Bytes(files: Directory): int {
    if files == map[] then 0
    else
      var name :| name in files;
      files[name].size + Bytes(files - {name})
  }

  ghost function FileAmount(files: Directory): Amount { Amount(Bytes(files), |files|) }

  ghost function InventoryAmount(inventory: Inventory): PerPurpose<Amount> {
    PerPurpose(FileAmount(inventory.journal), FileAmount(inventory.temporary),
               FileAmount(inventory.retained), FileAmount(inventory.promoted))
  }

  /** The sum does not depend on the order in which the files are taken. */
  lemma {:induction false} BytesTake(files: Directory, name: string)
    requires name in files
    ensures Bytes(files) == files[name].size + Bytes(files - {name})
    decreases |files|
  {
    var picked :| picked in files && Bytes(files) == files[picked].size + Bytes(files - {picked});
    if picked != name {
      BytesTake(files - {picked}, name);
      BytesTake(files - {name}, picked);
      assert files - {picked} - {name} == files - {name} - {picked};
    }
  }

  lemma BytesAdd(files: Directory, name: string, row: Row)
    requires name !in files
    ensures FileAmount(files[name := row]) == FileAmount(files).Plus(Amount(row.size, 1))
  {
    BytesTake(files[name := row], name);
    assert files[name := row] - {name} == files;
  }

  lemma {:induction false} BytesSplit(whole: Directory, part: Directory)
    requires forall name | name in part :: name in whole && whole[name] == part[name]
    ensures Bytes(whole) == Bytes(part) + Bytes(whole - part.Keys)
    decreases |part|
  {
    if part == map[] {
      assert whole - part.Keys == whole;
    } else {
      var name :| name in part;
      var whole', part' := whole - {name}, part - {name};
      assert whole' - part'.Keys == whole - part.Keys;
      BytesSplit(whole', part');
      BytesTake(whole, name);
      BytesTake(part, name);
    }
  }

  lemma CountSplit(whole: Directory, part: Directory)
    requires part.Keys <= whole.Keys
    ensures |whole| == |part| + |whole - part.Keys|
  {
    var rest := whole - part.Keys;
    assert whole.Keys == part.Keys + rest.Keys;
    assert |part.Keys + rest.Keys| == |part.Keys| + |rest.Keys|;
  }

  /** A directory that contains another one splits into it and the remaining files. */
  lemma FileAmountSplit(whole: Directory, part: Directory)
    requires forall name | name in part :: name in whole && whole[name] == part[name]
    ensures FileAmount(whole) == FileAmount(part).Plus(FileAmount(whole - part.Keys))
  {
    BytesSplit(whole, part);
    CountSplit(whole, part);
  }

  lemma {:induction false} BytesNatural(files: Directory)
    requires forall name | name in files :: 0 <= files[name].size
    ensures 0 <= Bytes(files)
    decreases |files|
  {
    if files != map[] {
      var name :| name in files && Bytes(files) == files[name].size + Bytes(files - {name});
      BytesNatural(files - {name});
    }
  }

  /** What one file contributes is at most what all of them contribute. */
  lemma BytesAtLeast(files: Directory, name: string)
    requires name in files
    requires forall other | other in files :: 0 <= files[other].size
    ensures files[name].size <= Bytes(files) && 1 <= |files|
  {
    BytesTake(files, name);
    BytesNatural(files - {name});
    assert name in files.Keys;
  }
}
