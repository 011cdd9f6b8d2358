/** The page table a container boots with: the first 512 gigabytes are mapped to themselves in pages
    of one gigabyte, the rest is the host's. */
module BootPageTable {

  const PAGE_PRESENT: bv64 := 1
  const PAGE_RW: bv64 := 2
  const PAGE_PSE: bv64 := 0x80
  const PAGE_GLOBAL: bv64 := 0x100

  /** PAGE_SIZE / sizeof(pteval_t) */
  const ENTRIES := 512

  function GigabytePage(i: bv64): bv64 {
    PAGE_PRESENT | PAGE_RW | PAGE_PSE | PAGE_GLOBAL | (i << 30)
  }

  function TableEntry(table: bv64): bv64 {
    PAGE_PRESENT | PAGE_RW | table
  }

  /** The two tables, given the one the host runs on and the physical address of the new upper
      directory. */
  method Create(current: array<bv64>, pudAddress: bv64) returns (pgtbl: array<bv64>, pud: array<bv64>)
    requires current.Length == ENTRIES
    ensures fresh(pgtbl) && fresh(pud) && pgtbl != pud
    ensures pgtbl[..] == current[..][0 := TableEntry(pudAddress)]
    ensures pud.Length == ENTRIES && forall i :: 0 <= i < ENTRIES ==> pud[i] == GigabytePage(i as bv64)
  {
    hide GigabytePage, TableEntry;
    pgtbl := new bv64[ENTRIES](k requires 0 <= k < current.Length reads current => current[k]);
    assert pgtbl[..] == current[..];
    pud := new bv64[ENTRIES];
    for i := 0 to ENTRIES
      invariant pgtbl[..] == current[..]
      invariant forall k :: 0 <= k < i ==> pud[k] == GigabytePage(k as bv64)
    {
      pud[i] := GigabytePage(i as bv64);
    }
    pgtbl[0] := TableEntry(pudAddress);
  }

  /** What a walk through the upper directory makes of an address: the page's frame, bits 30 to 51 of
      its entry, and the offset in the page. */
  function Translated(entry: bv64, address: bv64): bv64 {
    (entry & 0xF_FFFF_C000_0000) | (address & 0x3FFF_FFFF)
  }

  /** Every address below 512 gigabytes is mapped to itself, present, writable and as a large page. */
  lemma IdentityMap(address: bv64)
    requires address < 0x80_0000_0000
    ensures (address >> 30) < 512
    ensures Translated(GigabytePage(address >> 30), address) == address
    ensures GigabytePage(address >> 30) & 0x183 == 0x183 && GigabytePage(address >> 30) & 0x83 == 0x83
  {
  }

  /** The table an entry of the top level or of an upper directory leads to: its bits 12 to 51. */
  function TableOf(entry: bv64): bv64 {
    entry & 0xF_FFFF_FFFF_F000
  }

  /** The entry for the new directory is present and writable, is not a large page, and leads to the
      directory, whose address is that of a page. */
  lemma EntryLeadsToDirectory(pudAddress: bv64)
    requires pudAddress & 0xFFF == 0 && pudAddress < 0x10_0000_0000_0000
    ensures TableEntry(pudAddress) & 3 == 3 && TableEntry(pudAddress) & 0x80 == 0
    ensures TableOf(TableEntry(pudAddress)) == pudAddress
  {
  }

  /** Bits 39 to 47 of an address select the entry of the top level, bits 30 to 38 that of the directory. */
  function TopIndex(address: bv64): bv64 {
    (address >> 39) & 0x1FF
  }

  function DirectoryIndex(address: bv64): bv64 {
    (address >> 30) & 0x1FF
  }

  lemma Indices(address: bv64)
    requires address < 0x80_0000_0000
    ensures TopIndex(address) == 0 && DirectoryIndex(address) == address >> 30
  {
  }

  /** A walk from the top for an address below 512 gigabytes starts at entry 0, goes through the new
      directory and, with `i` the number of the entry there, ends at the address itself. */
  lemma WalkIsIdentity(pgtbl: seq<bv64>, pud: seq<bv64>, pudAddress: bv64, address: bv64, i: nat)
    requires |pgtbl| == ENTRIES && pgtbl[0] == TableEntry(pudAddress)
    requires |pud| == ENTRIES && forall k :: 0 <= k < ENTRIES ==> pud[k] == GigabytePage(k as bv64)
    requires pudAddress & 0xFFF == 0 && pudAddress < 0x10_0000_0000_0000
    requires address < 0x80_0000_0000 && i < ENTRIES && i as bv64 == DirectoryIndex(address)
    ensures TopIndex(address) == 0 && pgtbl[0] & 3 == 3 && TableOf(pgtbl[0]) == pudAddress
    ensures pud[i] & 0x83 == 0x83 && Translated(pud[i], address) == address
  {
    hide TopIndex, DirectoryIndex, GigabytePage, Translated, TableEntry, TableOf;
    Indices(address);
    EntryLeadsToDirectory(pudAddress);
    IdentityMap(address);
  }

  /** free_boot_pgtbl finds the upper directory again exactly when its address has the two lowest bits
      clear, as a page has. */
  lemma FreeFindsTable(table: bv64)
    ensures TableEntry(table) & !(PAGE_PRESENT | PAGE_RW) == table <==> table & 3 == 0
  {
  }
}
