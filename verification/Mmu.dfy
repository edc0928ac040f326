// The MMU's first-level page table: mapping regions, and the translation of every 32-bit address.
module Mmu {
  import opened Words
  import opened Libc

  const NUM_ENTRY: nat := 4096
  const SECTION: nat := 0x10_0000  // bytes mapped by one entry; MMU_PAGEBOUND_SHIFT is 20

  // struct region, for regions of sections (MMU_PGTYPE_SECTION keeps all twelve upper address bits).
  // attrs collects what mmu_regionMap or's into the low twenty bits of every entry.
  datatype Region = Region(startAddr: word, numPages: nat, attrs: nat)

  function First(r: Region): nat { r.startAddr / SECTION }

  predicate Covers(r: Region, k: nat) { First(r) <= k < First(r) + r.numPages }

  predicate Fits(r: Region) { First(r) + r.numPages <= NUM_ENTRY && r.attrs < SECTION }

  // The entry that maps section k onto itself
  function FlatEntry(k: nat, r: Region): word
    requires k < NUM_ENTRY && r.attrs < SECTION
  {
    k * SECTION + r.attrs
  }

  function Mapped(table: seq<word>, r: Region): (t: seq<word>)
    requires Fits(r) && |table| >= NUM_ENTRY
    ensures |t| == |table|
  {
    seq(|table|, k requires 0 <= k < |table| => if Covers(r, k) then FlatEntry(k, r) else table[k])
  }

  // mmu_regionMap
  method RegionMap(pageTable: array<word>, r: Region)
    requires Fits(r) && pageTable.Length >= NUM_ENTRY
    modifies pageTable
    ensures pageTable[..] == Mapped(old(pageTable[..]), r)
  {
    var ptEntryPtr := First(r);
    ptEntryPtr := ptEntryPtr + (r.numPages - 1);
    var ptEntry: word := First(r) * SECTION;  // (startAddr & pgType) & MMU_PGADDR_MASK
    ptEntry := ptEntry + r.attrs;             // |=, into bits that are still zero
    var i := r.numPages - 1;
    while i >= 0
      invariant -1 <= i < r.numPages && ptEntryPtr == First(r) + i
      invariant forall k :: 0 <= k < pageTable.Length ==>
        pageTable[k] == if Covers(r, k) && k > ptEntryPtr then FlatEntry(k, r) else old(pageTable[k])
    {
      pageTable[ptEntryPtr] := ptEntry + i * SECTION;
      ptEntryPtr := ptEntryPtr - 1;
      i := i - 1;
    }
  }

  // ---- Translation ----

  datatype Mapping = Mapping(pa: word, attrs: nat)

  // The walk of a first-level table for one address: a section descriptor ends in 10 and has bit 18
  // clear; anything else does not translate here.
  function Translate(table: seq<word>, va: word): Option<Mapping>
    requires |table| >= NUM_ENTRY
  {
    var e := table[va / SECTION];
    if e % 4 == 2 && e / 0x4_0000 % 2 == 0
    then Some(Mapping(e / SECTION * SECTION + va % SECTION, e % SECTION)) else None
  }

  predicate SectionAttrs(attrs: nat) {
    attrs < SECTION && attrs % 4 == 2 && attrs / 0x4_0000 % 2 == 0
  }

  lemma EntryParts(va: word, attrs: nat)
    requires attrs < SECTION
    ensures var e := va / SECTION * SECTION + attrs;
      && e / SECTION * SECTION + va % SECTION == va && e % SECTION == attrs
      && e % 4 == attrs % 4 && e / 0x4_0000 % 2 == attrs / 0x4_0000 % 2
  {
    var k, b := va / SECTION, attrs / 0x4_0000;
    var e := k * SECTION + attrs;
    DivUnique(e, SECTION, k, attrs);
    DivUnique(e, 4, 0x4_0000 * k + attrs / 4, attrs % 4);
    DivUnique(e, 0x4_0000, 4 * k + b, attrs % 0x4_0000);
    DivUnique(4 * k + b, 2, 2 * k + b / 2, b % 2);
  }

  lemma FlatTranslates(table: seq<word>, va: word, r: Region)
    requires |table| >= NUM_ENTRY && SectionAttrs(r.attrs)
    requires table[va / SECTION] == FlatEntry(va / SECTION, r)
    ensures Translate(table, va) == Some(Mapping(va, r.attrs))
  {
    EntryParts(va, r.attrs);
  }

  // ---- Mapping several regions ----

  function MapAll(table: seq<word>, rs: seq<Region>): (t: seq<word>)
    requires (forall r :: r in rs ==> Fits(r)) && |table| >= NUM_ENTRY
    ensures |t| == |table|
  {
    if rs == [] then table else Mapped(MapAll(table, rs[..|rs| - 1]), rs[|rs| - 1])
  }

  ghost predicate Apart(rs: seq<Region>) {
    forall r, s, k :: r in rs && s in rs && Covers(r, k) && Covers(s, k) ==> r == s
  }

  // Every section covered by a region is mapped onto itself with that region's attributes, every
  // other entry is left alone.
  lemma {:induction false} MapAllAt(table: seq<word>, rs: seq<Region>, k: nat)
    requires (forall r :: r in rs ==> Fits(r)) && |table| >= NUM_ENTRY && Apart(rs) && k < |table|
    ensures forall r :: r in rs && Covers(r, k) ==> k < NUM_ENTRY && MapAll(table, rs)[k] == FlatEntry(k, r)
    ensures (forall r :: r in rs ==> !Covers(r, k)) ==> MapAll(table, rs)[k] == table[k]
  {
    if rs != [] {
      var n := |rs| - 1;
      assert forall r :: r in rs[..n] ==> r in rs;
      MapAllAt(table, rs[..n], k);
      assert forall r :: r in rs ==> r in rs[..n] || r == rs[n];
      assert rs[n] in rs;
    }
  }

  // Regions that do not overlap give the same table in whatever order they are mapped.
  lemma OrderDoesNotMatter(table: seq<word>, rs: seq<Region>, other: seq<Region>)
    requires (forall r :: r in rs ==> Fits(r)) && |table| >= NUM_ENTRY && Apart(rs)
    requires forall r :: r in rs <==> r in other
    ensures MapAll(table, rs) == MapAll(table, other)
  {
    forall k | 0 <= k < |table| ensures MapAll(table, rs)[k] == MapAll(table, other)[k] {
      MapAllAt(table, rs, k);
      MapAllAt(table, other, k);
    }
  }

  // ---- mmu_init ----

  const NORMAL_ATTRS: nat := 0x8_5C0A  // non-shareable, inner write-through, outer write-back, user read/write
  const DEVICE_ATTRS: nat := 0x8_0C16  // shareable device, user read/write, execute never

  // The macros behind the two attribute words: page type, access, memory type and security
  lemma AttributeWords()
    ensures (0x0004_0002 & 0xFFF0_4002) | 0x0C00 | (0x4000 | (0x1 << 12) | (0x2 << 2)) | 0x0008_0000 == 0x8_5C0A as bv32
    ensures (0x0004_0002 & 0xFFF0_4002) | (0x0C00 | 0x10) | 0x4 | 0x0008_0000 == 0x8_0C16 as bv32
  {
  }

  // The attributes of a section: bits 3, 4 and 10 (ARMv7-A short descriptors, section B3.5.1)
  predicate Cacheable(attrs: nat) { attrs / 8 % 2 == 1 }
  predicate ExecuteNever(attrs: nat) { attrs / 0x10 % 2 == 1 }
  predicate UserAccess(attrs: nat) { attrs / 0x400 % 4 == 3 && attrs / 0x8000 % 2 == 0 }

  lemma AttributesMean()
    ensures Cacheable(NORMAL_ATTRS) && !ExecuteNever(NORMAL_ATTRS) && UserAccess(NORMAL_ATTRS)
    ensures !Cacheable(DEVICE_ATTRS) && ExecuteNever(DEVICE_ATTRS) && UserAccess(DEVICE_ATTRS)
  {
  }

  const DDR := Region(0x8000_0000, 512, NORMAL_ATTRS)
  const OCMC := Region(0x4030_0000, 1, NORMAL_ATTRS)
  const DEV := Region(0x4400_0000, 960, DEVICE_ATTRS)
  const ROM := Region(0x0002_0000, 1, NORMAL_ATTRS)

  function Regions(): seq<Region> { [DDR, OCMC, DEV, ROM] }

  function SectionStart(r: Region): nat { First(r) * SECTION }
  predicate InRegion(r: Region, va: word) { SectionStart(r) <= va < SectionStart(r) + r.numPages * SECTION }

  lemma RegionsAreApart()
    ensures Apart(Regions()) && forall r :: r in Regions() ==> Fits(r) && SectionAttrs(r.attrs)
  {
  }

  lemma InRegionCovers(r: Region, va: word)
    ensures InRegion(r, va) <==> Covers(r, va / SECTION)
  {
  }

  // The four calls of mmu_regionMap
  method MapRegions(pageTable: array<word>)
    requires pageTable.Length >= NUM_ENTRY && Fits(DDR) && Fits(OCMC) && Fits(DEV) && Fits(ROM)
    modifies pageTable
    ensures (forall r :: r in Regions() ==> Fits(r)) && pageTable[..] == MapAll(old(pageTable[..]), Regions())
  {
    MapNext(pageTable, old(pageTable[..]), [], DDR);
    MapNext(pageTable, old(pageTable[..]), [] + [DDR], OCMC);
    MapNext(pageTable, old(pageTable[..]), [] + [DDR] + [OCMC], DEV);
    MapNext(pageTable, old(pageTable[..]), [] + [DDR] + [OCMC] + [DEV], ROM);
    assert [] + [DDR] + [OCMC] + [DEV] + [ROM] == Regions();
  }

  method MapNext(pageTable: array<word>, ghost t: seq<word>, ghost rs: seq<Region>, r: Region)
    requires pageTable.Length >= NUM_ENTRY && |t| >= NUM_ENTRY && Fits(r) && forall q :: q in rs ==> Fits(q)
    requires pageTable[..] == MapAll(t, rs)
    modifies pageTable
    ensures (forall q :: q in rs + [r] ==> Fits(q)) && pageTable[..] == MapAll(t, rs + [r])
  {
    RegionMap(pageTable, r);
    MapMore(t, rs, r);
  }

  // mmu_init. The clearing loop runs from index 4096 down to 1: it touches one cell past the table
  // and misses entry 0, which the ROM region then sets; so every address still translates to itself
  // in one of the four regions, or faults.
  method Init(pageTable: array<word>)
    requires pageTable.Length == NUM_ENTRY + 1
    modifies pageTable
    ensures forall va: word, r :: r in Regions() && InRegion(r, va) ==>
      Translate(pageTable[..], va) == Some(Mapping(va, r.attrs))
    ensures forall va: word :: (forall r :: r in Regions() ==> !InRegion(r, va)) ==>
      Translate(pageTable[..], va) == None
    ensures forall va: word ::
      Translate(pageTable[..], va) ==
        if va < 0x10_0000 || 0x4030_0000 <= va < 0x4040_0000 || 0x8000_0000 <= va < 0xA000_0000
        then Some(Mapping(va, 0x8_5C0A))
        else if 0x4400_0000 <= va < 0x8000_0000 then Some(Mapping(va, 0x8_0C16))
        else None
  {
    var i := NUM_ENTRY;
    while i != 0
      invariant 0 <= i <= NUM_ENTRY
      invariant forall k :: i < k <= NUM_ENTRY ==> pageTable[k] == 0
    {
      pageTable[i] := 0x0;
      i := i - 1;
    }
    RegionsAreApart();
    ghost var cleared := pageTable[..];
    MapRegions(pageTable);
    Translations(cleared, pageTable[..]);
    forall va: word { WhereRegionsAre(va); }
  }

  // Internal memory, the exception vectors and 512 MB of DDR are normal memory; the 960 MB below are devices.
  lemma WhereRegionsAre(va: word)
    ensures InRegion(ROM, va) <==> va < 0x10_0000
    ensures InRegion(OCMC, va) <==> 0x4030_0000 <= va < 0x4040_0000
    ensures InRegion(DDR, va) <==> 0x8000_0000 <= va < 0xA000_0000
    ensures InRegion(DEV, va) <==> 0x4400_0000 <= va < 0x8000_0000
    ensures ROM in Regions() && OCMC in Regions() && DDR in Regions() && DEV in Regions()
    ensures ROM.attrs == OCMC.attrs == DDR.attrs == 0x8_5C0A && DEV.attrs == 0x8_0C16
  {
  }

  lemma MapMore(t: seq<word>, rs: seq<Region>, r: Region)
    requires |t| >= NUM_ENTRY && Fits(r) && forall q :: q in rs ==> Fits(q)
    ensures (forall q :: q in rs + [r] ==> Fits(q)) && MapAll(t, rs + [r]) == Mapped(MapAll(t, rs), r)
  {
    assert (rs + [r])[..|rs|] == rs;
  }

  lemma Translations(cleared: seq<word>, t: seq<word>)
    requires |cleared| > NUM_ENTRY && forall k :: 0 < k <= NUM_ENTRY ==> cleared[k] == 0
    requires (forall r :: r in Regions() ==> Fits(r)) && t == MapAll(cleared, Regions())
    ensures forall va: word, r :: r in Regions() && InRegion(r, va) ==> Translate(t, va) == Some(Mapping(va, r.attrs))
    ensures forall va: word :: (forall r :: r in Regions() ==> !InRegion(r, va)) ==> Translate(t, va) == None
  {
    RegionsAreApart();
    forall va: word, r | r in Regions() && InRegion(r, va)
      ensures Translate(t, va) == Some(Mapping(va, r.attrs))
    {
      InRegionCovers(r, va);
      MapAllAt(cleared, Regions(), va / SECTION);
      FlatTranslates(t, va, r);
    }
    forall va: word | forall r :: r in Regions() ==> !InRegion(r, va)
      ensures Translate(t, va) == None
    {
      Uncovered(va);
      Unmapped(cleared, va);
    }
  }

  lemma Uncovered(va: word)
    requires forall r :: r in Regions() ==> !InRegion(r, va)
    ensures forall r :: r in Regions() ==> !Covers(r, va / SECTION)
    ensures va / SECTION != 0
  {
    forall r | r in Regions() ensures !Covers(r, va / SECTION) {
      InRegionCovers(r, va);
    }
    assert ROM in Regions() && Covers(ROM, 0);
  }

  lemma Unmapped(cleared: seq<word>, va: word)
    requires |cleared| > NUM_ENTRY && (forall k :: 0 < k <= NUM_ENTRY ==> cleared[k] == 0) && va / SECTION != 0
    requires forall r :: r in Regions() ==> Fits(r) && !Covers(r, va / SECTION)
    ensures Translate(MapAll(cleared, Regions()), va) == None
  {
    RegionsAreApart();
    MapAllAt(cleared, Regions(), va / SECTION);
    FaultEntry(MapAll(cleared, Regions()), va);
  }

  lemma FaultEntry(t: seq<word>, va: word)
    requires |t| >= NUM_ENTRY && t[va / SECTION] == 0
    ensures Translate(t, va) == None
  {
  }
}
