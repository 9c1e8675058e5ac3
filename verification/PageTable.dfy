// vmm/pagetable.c: three-level tables built in raw memory.
//
// The C code composes descriptor addresses and descriptors from bit fields.  `SetPageSpec` and
// `SetBlockSpec` are the same updates as arithmetic on a memory value; the class at the end is
// the code, proved against them.  The lemmas in between relate a memory image to the decoded
// table of module TableModel and to the hardware walk of module Walker.
module PageTable {
  import opened Options
  import opened BitOps
  import opened PhysMem
  import opened Walker
  import opened TableModel

  // The fields of pagetable_ld.
  datatype Ld = Ld(l1Base: nat, l2Base: nat, l3Base: nat, pageCount: nat)

  const LIMIT_32: nat := 0x1_0000_0000

  // pagetable_init clears eight level-3 tables.
  const CLEARED_L3: nat := 8

  function L2Slot(t: Ld, r: nat): nat {
    t.l2Base + 8 * r
  }

  function L3Slot(t: Ld, i: int): int {
    t.l3Base + 8 * i
  }

  function L3Table(t: Ld, k: nat): nat {
    t.l3Base + 0x1000 * k
  }

  // The level-2 descriptor of 2 MiB region r.
  function L2Desc(m: Words, t: Ld, r: nat): u64 {
    LoadD(m, L2Slot(t, r))
  }

  // The table that table descriptor d points to, counted from l3Base.
  function L3Index(t: Ld, d: u64): nat {
    if d < t.l3Base then 0 else (d - t.l3Base) / 0x1000
  }

  function TableDesc(a: nat): nat {
    a + 3
  }

  // AF + page, AF + block.
  function PageDesc(q: nat): nat {
    q * 0x1000 + 0x403
  }

  function BlockDesc(q: nat): nat {
    q / 0x200 * 0x20_0000 + 0x401
  }

  // ---------------------------------------------------------------------------------------
  // Well-formed tables
  // ---------------------------------------------------------------------------------------

  // `limit` is the number of 4 KiB level-3 tables reserved behind l3Base.
  ghost predicate Layout(t: Ld, limit: nat) {
    && t.l1Base % 0x1000 == 0
    && t.l2Base == t.l1Base + 0x1000
    && t.l3Base == t.l1Base + 0x5000
    && t.pageCount <= limit
    && t.l3Base + 0x1000 * limit <= LIMIT_32
  }

  function RegionEnd(t: Ld, limit: nat): nat {
    t.l3Base + 0x1000 * limit
  }

  function L1Desc(m: Words, l1: nat, i: nat): u64 {
    LoadD(m, l1 + 8 * i)
  }

  // The first n level-1 descriptors point to the level-2 tables.
  ghost predicate LinkedUpTo(m: Words, l1: nat, l2: nat, n: nat) {
    forall i :: 0 <= i < n ==> L1Desc(m, l1, i) == TableDesc(l2 + 0x1000 * i)
  }

  ghost predicate LinkedL1(m: Words, t: Ld) {
    LinkedUpTo(m, t.l1Base, t.l2Base, 4)
  }

  // A table descriptor points exactly to one of the reserved level-3 tables.
  predicate Linked(t: Ld, limit: nat, d: u64) {
    IsTable(d) ==> L3Index(t, d) < limit && d == TableDesc(L3Table(t, L3Index(t, d)))
  }

  ghost predicate LinkedL2(m: Words, t: Ld, limit: nat) {
    forall r :: 0 <= r < REGIONS ==> Linked(t, limit, L2Desc(m, t, r))
  }

  function EntryOf(t: Ld, d: u64): Entry {
    if IsTable(d) then Table(L3Index(t, d))
    else if IsBlock(d) then Block(d / 0x20_0000 % 0x8_0000)
    else Hole
  }

  // The decoded table.
  ghost function View(m: Words, t: Ld, limit: nat): Tab {
    Tab(seq(REGIONS, r requires 0 <= r < REGIONS => EntryOf(t, L2Desc(m, t, r))),
        seq(0x200 * limit, i => LeafPage(LoadD(m, L3Slot(t, i)))),
        t.pageCount)
  }

  ghost predicate WellFormed(m: Words, t: Ld, limit: nat) {
    Layout(t, limit) && LinkedL1(m, t) && LinkedL2(m, t, limit) && Valid(View(m, t, limit))
  }

  ghost predicate ZeroOn(m: Words, lo: int, hi: int) {
    forall a :: lo <= a < hi && a % 4 == 0 ==> LoadW(m, a) == 0
  }

  // The state pagetable_init leaves behind, with `limit` empty level-3 tables.
  ghost predicate Fresh(m: Words, t: Ld, limit: nat) {
    && Layout(t, limit)
    && t.pageCount == 0
    && LinkedL1(m, t)
    && ZeroOn(m, t.l2Base, RegionEnd(t, limit))
  }

  lemma Aligned(base: nat, i: nat)
    requires base % 0x1000 == 0
    ensures (base + 8 * i) % 8 == 0 && (base + 8 * i) % 4 == 0 && (base + 8 * i + 4) % 4 == 0
  {
    var b := base / 0x1000;
    DivUnique(base + 8 * i, 8, 0x200 * b + i, 0);
    DivUnique(base + 8 * i, 4, 0x400 * b + 2 * i, 0);
    DivUnique(base + 8 * i + 4, 4, 0x400 * b + 2 * i + 1, 0);
  }

  lemma PageAligned(base: nat, k: nat)
    requires base % 0x1000 == 0
    ensures (base + 0x1000 * k) % 0x1000 == 0
  {
    DivUnique(base + 0x1000 * k, 0x1000, base / 0x1000 + k, 0);
  }

  lemma ZeroDesc(m: Words, lo: int, hi: int, base: nat, i: nat)
    requires ZeroOn(m, lo, hi) && base % 0x1000 == 0 && lo <= base && base + 8 * i + 8 <= hi
    ensures LoadD(m, base + 8 * i) == 0
  {
    Aligned(base, i);
  }

  lemma FreshIsEmpty(m: Words, t: Ld, limit: nat)
    requires Fresh(m, t, limit)
    ensures WellFormed(m, t, limit)
    ensures View(m, t, limit) == EmptyTab(limit)
  {
    hide LoadD, ZeroOn, LinkedUpTo;
    PageAligned(t.l1Base, 1);
    PageAligned(t.l1Base, 5);
    forall r | 0 <= r < REGIONS
      ensures L2Desc(m, t, r) == 0
    {
      ZeroDesc(m, t.l2Base, RegionEnd(t, limit), t.l2Base, r);
    }
    forall i | 0 <= i < 0x200 * limit
      ensures LoadD(m, L3Slot(t, i)) == 0
    {
      ZeroDesc(m, t.l2Base, RegionEnd(t, limit), t.l3Base, i);
    }
    assert View(m, t, limit).regions == EmptyTab(limit).regions;
    assert View(m, t, limit).leaves == EmptyTab(limit).leaves;
  }

  // ---------------------------------------------------------------------------------------
  // The hardware walk of a well-formed table is a lookup in the decoded table
  // ---------------------------------------------------------------------------------------

  lemma TableAddress(a: nat)
    requires a % 0x1000 == 0 && a < 0x100_0000_0000
    ensures IsTable(TableDesc(a)) && NextTable(TableDesc(a)) == a
  {
    var b := a / 0x1000;
    DivUnique(a + 3, 4, 0x400 * b, 3);
    DivUnique(a + 3, 0x1000, b, 3);
    DivUnique(b, 0x1000_0000, 0, b);
  }

  lemma RegionOfPage(p: nat)
    requires p < PAGES
    ensures p / 0x4_0000 < 4 && p / 0x200 < REGIONS
    ensures 0x1000 * (p / 0x4_0000) + 8 * (p / 0x200 % 0x200) == 8 * (p / 0x200)
  {
    assert p / 0x4_0000 == p / 0x200 / 0x200;
  }

  lemma BaseAddress(a: nat)
    requires a % 0x1000 == 0 && a < LIMIT_32
    ensures a / 0x20 % 0x8_0000_0000 * 0x20 == a
  {
  }

  lemma EntryOfRegion(m: Words, t: Ld, limit: nat, p: nat)
    requires WellFormed(m, t, limit) && p < PAGES
    ensures p / 0x200 < REGIONS && L3Table(t, t.pageCount) <= LIMIT_32
    ensures View(m, t, limit).regions[p / 0x200] == EntryOf(t, L2Desc(m, t, p / 0x200))
    ensures Linked(t, limit, L2Desc(m, t, p / 0x200))
  {
    RegionOfPage(p);
  }

  // Leaf e of level-3 table k.
  lemma LeafIndex(v: Tab, k: nat, e: nat)
    requires 0x200 * v.count <= |v.leaves| && k < v.count && e < 0x200
    ensures 0x200 * k + e < |v.leaves|
  {
  }

  lemma WalkL2OfTable(m: Words, t: Ld, limit: nat, p: nat)
    requires WellFormed(m, t, limit) && p < PAGES
    ensures WalkL2(m, L2Desc(m, t, p / 0x200), p) == Lookup(View(m, t, limit), p)
  {
    hide LoadD;
    var v := View(m, t, limit);
    var d := L2Desc(m, t, p / 0x200);
    EntryOfRegion(m, t, limit, p);
    if v.regions[p / 0x200].Table? {
      var k, e := v.regions[p / 0x200].index, p % 0x200;
      TableAddress(L3Table(t, k));
      LeafIndex(v, k, e);
      assert v.leaves[0x200 * k + e] == LeafPage(LoadD(m, L3Slot(t, 0x200 * k + e)));
      assert NextTable(d) + 8 * e == L3Slot(t, 0x200 * k + e);
    }
  }

  // The hardware walk of a well-formed table is a lookup in the decoded table.
  lemma WalkOfTable(m: Words, t: Ld, limit: nat, p: nat)
    requires WellFormed(m, t, limit) && p < PAGES
    ensures WalkPage(m, t.l1Base, p) == Lookup(View(m, t, limit), p)
  {
    hide LoadD, View, Lookup, WalkL2, Valid;
    var i := p / 0x4_0000;
    RegionOfPage(p);
    BaseAddress(t.l1Base);
    var l1 := L1Desc(m, t.l1Base, i);
    assert l1 == TableDesc(t.l2Base + 0x1000 * i);
    TableAddress(t.l2Base + 0x1000 * i);
    assert NextTable(l1) + 8 * (p / 0x200 % 0x200) == L2Slot(t, p / 0x200);
    WalkL2OfTable(m, t, limit, p);
  }

  // ---------------------------------------------------------------------------------------
  // Stores into the table region, seen through the decoded table
  // ---------------------------------------------------------------------------------------

  lemma L1Kept(m: Words, m': Words, t: Ld)
    requires SameOn(m, m', t.l1Base, t.l1Base + 0x20)
    ensures LinkedL1(m, t) ==> LinkedL1(m', t)
  {
    forall i | 0 <= i < 4
      ensures L1Desc(m', t.l1Base, i) == L1Desc(m, t.l1Base, i)
    {
    }
  }

  lemma StoreLeafView(m: Words, t: Ld, limit: nat, i: nat, d: u64)
    requires t.l3Base == t.l2Base + 0x4000 && t.l2Base == t.l1Base + 0x1000 && i < 0x200 * limit
    ensures var m' := StoreD(m, L3Slot(t, i), d); var v := View(m, t, limit);
      && View(m', t, limit) == v.(leaves := v.leaves[i := LeafPage(d)])
      && (LinkedL1(m, t) ==> LinkedL1(m', t))
      && (LinkedL2(m, t, limit) ==> LinkedL2(m', t, limit))
      && SameOutside(m, m', t.l2Base, RegionEnd(t, limit))
  {
    var m' := StoreD(m, L3Slot(t, i), d);
    var v := View(m, t, limit);
    L1Kept(m, m', t);
    forall r | 0 <= r < REGIONS
      ensures L2Desc(m', t, r) == L2Desc(m, t, r)
    {
      LoadStoreD(m, L3Slot(t, i), d, L2Slot(t, r));
    }
    forall j | 0 <= j < 0x200 * limit
      ensures LoadD(m', L3Slot(t, j)) == if j == i then d else LoadD(m, L3Slot(t, j))
    {
      LoadStoreD(m, L3Slot(t, i), d, L3Slot(t, j));
    }
    assert View(m', t, limit).regions == v.regions;
    assert View(m', t, limit).leaves == v.leaves[i := LeafPage(d)];
  }

  lemma StoreRegionView(m: Words, t: Ld, limit: nat, r: nat, d: u64)
    requires t.l3Base == t.l2Base + 0x4000 && t.l2Base == t.l1Base + 0x1000 && r < REGIONS
    requires Linked(t, limit, d)
    ensures var m' := StoreD(m, L2Slot(t, r), d); var v := View(m, t, limit);
      && View(m', t, limit) == v.(regions := v.regions[r := EntryOf(t, d)])
      && (LinkedL1(m, t) ==> LinkedL1(m', t))
      && (LinkedL2(m, t, limit) ==> LinkedL2(m', t, limit))
      && SameOutside(m, m', t.l2Base, RegionEnd(t, limit))
  {
    var m' := StoreD(m, L2Slot(t, r), d);
    var v := View(m, t, limit);
    L1Kept(m, m', t);
    forall s | 0 <= s < REGIONS
      ensures L2Desc(m', t, s) == if s == r then d else L2Desc(m, t, s)
    {
      LoadStoreD(m, L2Slot(t, r), d, L2Slot(t, s));
    }
    forall j | 0 <= j < 0x200 * limit
      ensures LoadD(m', L3Slot(t, j)) == LoadD(m, L3Slot(t, j))
    {
      LoadStoreD(m, L2Slot(t, r), d, L3Slot(t, j));
    }
    assert View(m', t, limit).regions == v.regions[r := EntryOf(t, d)];
    assert View(m', t, limit).leaves == v.leaves;
  }

  // ---------------------------------------------------------------------------------------
  // pagetable_set_page and pagetable_set_block as updates of memory
  // ---------------------------------------------------------------------------------------

  // Link the next unused level-3 table to region r.
  function LinkSpec(m: Words, t: Ld, r: nat): (Words, Ld)
    requires L3Table(t, t.pageCount) <= LIMIT_32
  {
    (StoreD(m, L2Slot(t, r), TableDesc(L3Table(t, t.pageCount))), t.(pageCount := t.pageCount + 1))
  }

  // Fill entry e of level-3 table k.
  function FillSpec(m: Words, t: Ld, k: nat, e: nat, q: nat): Words
    requires q < PAGES
  {
    StoreD(m, L3Slot(t, 0x200 * k + e), PageDesc(q))
  }

  // Map input page p to output page q.
  function SetPageSpec(m: Words, t: Ld, p: nat, q: nat): (Words, Ld)
    requires p < PAGES && q < PAGES
    requires L3Table(t, t.pageCount) <= LIMIT_32
  {
    var d := L2Desc(m, t, p / 0x200);
    if IsTable(d) then (FillSpec(m, t, L3Index(t, d), p % 0x200, q), t)
    else
      var s := LinkSpec(m, t, p / 0x200);
      (FillSpec(s.0, s.1, t.pageCount, p % 0x200, q), s.1)
  }

  // Map the 2 MiB region of input page p to the 2 MiB block of output page q.
  function SetBlockSpec(m: Words, t: Ld, p: nat, q: nat): Words
    requires p < PAGES && q < PAGES
  {
    StoreD(m, L2Slot(t, p / 0x200), BlockDesc(q))
  }

  lemma DecodePageDesc(q: nat)
    requires q < PAGES
    ensures LeafPage(PageDesc(q)) == Some(q)
  {
    DivUnique(PageDesc(q), 4, 0x400 * q + 0x100, 3);
    DivUnique(PageDesc(q), 0x400, 4 * q + 1, 3);
    DivUnique(4 * q + 1, 2, 2 * q, 1);
    DivUnique(PageDesc(q), 0x1000, q, 0x403);
    DivUnique(q, 0x1000_0000, 0, q);
  }

  lemma DecodeBlockDesc(t: Ld, q: nat)
    requires q < PAGES
    ensures !IsTable(BlockDesc(q)) && EntryOf(t, BlockDesc(q)) == Block(q / 0x200)
  {
    var f := q / 0x200;
    DivUnique(BlockDesc(q), 4, 0x8_0000 * f + 0x100, 1);
    DivUnique(BlockDesc(q), 0x400, 0x800 * f + 1, 1);
    DivUnique(0x800 * f + 1, 2, 0x400 * f, 1);
    DivUnique(BlockDesc(q), 0x20_0000, f, 0x401);
    DivUnique(f, 0x8_0000, 0, f);
  }

  lemma TableDescArithmetic(b: nat, k: nat, d: int)
    requires d == 0x1000 * b + 0x1000 * k + 3
    ensures d % 4 == 3 && (d - 0x1000 * b) / 0x1000 == k
  {
    DivUnique(d, 4, 0x400 * b + 0x400 * k, 3);
    DivUnique(d - 0x1000 * b, 0x1000, k, 3);
  }

  lemma DecodeTableDesc(t: Ld, k: nat, d: u64)
    requires t.l3Base % 0x1000 == 0 && d == TableDesc(L3Table(t, k))
    ensures IsTable(d) && L3Index(t, d) == k
  {
    TableDescArithmetic(t.l3Base / 0x1000, k, d);
  }

  lemma LinkView(m: Words, t: Ld, limit: nat, r: nat)
    requires WellFormed(m, t, limit) && r < REGIONS && t.pageCount < limit
    ensures var s := LinkSpec(m, t, r);
      && View(s.0, s.1, limit) == Link(View(m, t, limit), r)
      && LinkedL1(s.0, s.1) && LinkedL2(s.0, s.1, limit)
      && SameOutside(m, s.0, t.l2Base, RegionEnd(t, limit))
  {
    hide LoadD, StoreD;
    var n := TableDesc(L3Table(t, t.pageCount));
    DecodeTableDesc(t, t.pageCount, n);
    StoreRegionView(m, t, limit, r, n);
    CountDoesNotDecode(StoreD(m, L2Slot(t, r), n), t, t.pageCount + 1, limit);
  }

  lemma FillView(m: Words, t: Ld, limit: nat, p: nat, q: nat, k: nat)
    requires WellFormed(m, t, limit) && p < PAGES && q < PAGES
    requires p / 0x200 < REGIONS && View(m, t, limit).regions[p / 0x200] == Table(k)
    ensures var m' := FillSpec(m, t, k, p % 0x200, q);
      && WellFormed(m', t, limit)
      && View(m', t, limit) == Fill(View(m, t, limit), p, q)
      && SameOutside(m, m', t.l2Base, RegionEnd(t, limit))
  {
    hide LoadD;
    LeafIndex(View(m, t, limit), k, p % 0x200);
    DecodePageDesc(q);
    FillMeaning(View(m, t, limit), p, q, p);
    StoreLeafView(m, t, limit, 0x200 * k + p % 0x200, PageDesc(q));
  }

  // The memory update performs the page mapping of the decoded table, keeps the table well
  // formed, and writes nothing outside the level-2 and level-3 tables.
  lemma SetPageView(m: Words, t: Ld, limit: nat, p: nat, q: nat)
    requires WellFormed(m, t, limit) && p < PAGES && q < PAGES
    requires HasL3(View(m, t, limit), p)
    ensures L3Table(t, t.pageCount) <= LIMIT_32
    ensures var s := SetPageSpec(m, t, p, q);
      && WellFormed(s.0, s.1, limit)
      && View(s.0, s.1, limit) == SetPage(View(m, t, limit), p, q)
      && SameOutside(m, s.0, t.l2Base, RegionEnd(t, limit))
      && s.1.l1Base == t.l1Base
  {
    hide LoadD, StoreD, LinkedL1, LinkedL2, Valid, Fill;
    var v, r := View(m, t, limit), p / 0x200;
    EntryOfRegion(m, t, limit, p);
    if v.regions[r].Table? {
      FillView(m, t, limit, p, q, v.regions[r].index);
    } else {
      LinkView(m, t, limit, r);
      LinkKeepsValid(v, r);
      var s := LinkSpec(m, t, r);
      FillView(s.0, s.1, limit, p, q, t.pageCount);
    }
  }

  // The decoding of memory does not depend on page_count.
  lemma CountDoesNotDecode(m: Words, t: Ld, n: nat, limit: nat)
    ensures View(m, t.(pageCount := n), limit) == View(m, t, limit).(count := n)
    ensures LinkedL1(m, t) ==> LinkedL1(m, t.(pageCount := n))
    ensures LinkedL2(m, t, limit) ==> LinkedL2(m, t.(pageCount := n), limit)
  {
    var t' := t.(pageCount := n);
    forall r | 0 <= r < REGIONS
      ensures L2Desc(m, t', r) == L2Desc(m, t, r)
    {
    }
    assert View(m, t', limit).regions == View(m, t, limit).regions;
    assert View(m, t', limit).leaves == View(m, t, limit).leaves;
  }

  lemma SetBlockView(m: Words, t: Ld, limit: nat, p: nat, q: nat)
    requires WellFormed(m, t, limit) && p < PAGES && q < PAGES
    ensures var m' := SetBlockSpec(m, t, p, q);
      && WellFormed(m', t, limit)
      && View(m', t, limit) == SetBlock(View(m, t, limit), p, q)
      && SameOutside(m, m', t.l2Base, RegionEnd(t, limit))
  {
    RegionOfPage(p);
    DecodeBlockDesc(t, q);
    SetBlockKeepsValid(View(m, t, limit), p, q);
    StoreRegionView(m, t, limit, p / 0x200, BlockDesc(q));
  }

  // Memory that agrees on the table region holds the same table.
  lemma TableFrame(m: Words, m': Words, t: Ld, limit: nat)
    requires WellFormed(m, t, limit) && SameOn(m, m', t.l1Base, RegionEnd(t, limit))
    ensures WellFormed(m', t, limit) && View(m', t, limit) == View(m, t, limit)
  {
    L1Kept(m, m', t);
    forall r | 0 <= r < REGIONS
      ensures L2Desc(m', t, r) == L2Desc(m, t, r)
    {
    }
    forall j | 0 <= j < 0x200 * limit
      ensures LoadD(m', L3Slot(t, j)) == LoadD(m, L3Slot(t, j))
    {
    }
    assert View(m', t, limit).regions == View(m, t, limit).regions;
    assert View(m', t, limit).leaves == View(m, t, limit).leaves;
  }

  // ---------------------------------------------------------------------------------------
  // What one mapping means to the hardware
  // ---------------------------------------------------------------------------------------

  lemma ViewShape(m: Words, t: Ld, limit: nat)
    ensures var v := View(m, t, limit);
      && |v.regions| == REGIONS && |v.leaves| == 0x200 * limit && |v.leaves| % 0x200 == 0
      && v.count == t.pageCount
      && (forall i :: 0 <= i < 0x200 * limit ==> v.leaves[i] == LeafPage(LoadD(m, L3Slot(t, i))))
  {
  }

  function PageNo(ipa: nat): nat {
    ipa % LIMIT_32 / 0x1000
  }

  lemma PageNoBound(ipa: nat)
    ensures PageNo(ipa) < PAGES
  {
  }

  // After pagetable_set_page(ipa, pa), for every 32-bit address x: the page of ipa translates
  // to the page of pa; if the 2 MiB region of ipa had no level-3 table, the rest of it now
  // translates as the linked level-3 table happens to say; every other address translates as
  // before.  The rest of the region is unmapped exactly when that level-3 table was empty.
  lemma SetPageTranslates(m: Words, t: Ld, limit: nat, ipa: u64, pa: u32, x: u32)
    requires WellFormed(m, t, limit) && HasL3(View(m, t, limit), PageNo(ipa))
    ensures L3Table(t, t.pageCount) <= LIMIT_32
    ensures var s := SetPageSpec(m, t, PageNo(ipa), pa / 0x1000);
      var links := !View(m, t, limit).regions[PageNo(ipa) / 0x200].Table?;
      Translate(s.0, t.l1Base, x)
        == if x / 0x1000 == PageNo(ipa) then Some(pa / 0x1000 * 0x1000 + x % 0x1000)
           else if links && x / 0x20_0000 == ipa % LIMIT_32 / 0x20_0000
           then InPage(LeafPage(LoadD(m, L3Slot(t, 0x200 * t.pageCount + x / 0x1000 % 0x200))), x)
           else Translate(m, t.l1Base, x)
  {
    hide LoadD, WalkPage, View, Valid, SetPageSpec, Lookup, SetPage;
    var p, q := PageNo(ipa), pa / 0x1000;
    var s := SetPageSpec(m, t, p, q);
    ViewShape(m, t, limit);
    SetPageView(m, t, limit, p, q);
    SetPageMeaning(View(m, t, limit), p, q, x / 0x1000);
    if !View(m, t, limit).regions[p / 0x200].Table? {
      LeafIndex(View(m, t, limit).(count := t.pageCount + 1), t.pageCount, x / 0x1000 % 0x200);
    }
    WalkOfTable(m, t, limit, x / 0x1000);
    WalkOfTable(s.0, s.1, limit, x / 0x1000);
    RegionOfAddress(x);
    RegionOfAddress(ipa % LIMIT_32);
  }

  function InPage(q: Option<nat>, x: u32): Option<nat> {
    match q
    case None => None
    case Some(f) => Some(f * 0x1000 + x % 0x1000)
  }

  lemma RegionOfAddress(x: u32)
    ensures x / 0x1000 / 0x200 == x / 0x20_0000 && x / 0x1000 < PAGES
  {
  }

  // After pagetable_set_block(ipa, pa) the whole 2 MiB region of ipa translates to the 2 MiB
  // block of pa, and every other address translates as before.
  lemma SetBlockTranslates(m: Words, t: Ld, limit: nat, ipa: u64, pa: u32, x: u32)
    requires WellFormed(m, t, limit)
    ensures Translate(SetBlockSpec(m, t, PageNo(ipa), pa / 0x1000), t.l1Base, x)
         == if x / 0x20_0000 == ipa % LIMIT_32 / 0x20_0000
            then Some(pa / 0x20_0000 * 0x20_0000 + x % 0x20_0000)
            else Translate(m, t.l1Base, x)
  {
    hide LoadD, WalkPage, View, Valid, SetBlockSpec, Lookup, SetBlock;
    var p, q := PageNo(ipa), pa / 0x1000;
    SetBlockView(m, t, limit, p, q);
    SetBlockMeaning(View(m, t, limit), p, q, x / 0x1000);
    WalkOfTable(m, t, limit, x / 0x1000);
    WalkOfTable(SetBlockSpec(m, t, p, q), t, limit, x / 0x1000);
    RegionOfAddress(x);
    RegionOfAddress(ipa % LIMIT_32);
    RegionOfAddress(pa);
    assert x % 0x20_0000 == x / 0x1000 % 0x200 * 0x1000 + x % 0x1000;
  }

  // ---------------------------------------------------------------------------------------
  // Runs of mappings in memory
  // ---------------------------------------------------------------------------------------

  function ApplyOp(m: Words, t: Ld, op: MapOp): (Words, Ld)
    requires op.p < PAGES && op.q < PAGES
    requires L3Table(t, t.pageCount) <= LIMIT_32
  {
    match op
    case MapPage(p, q) => SetPageSpec(m, t, p, q)
    case MapBlock(p, q) => (SetBlockSpec(m, t, p, q), t)
  }

  // The memory and the pagetable_ld after a run of calls from a fresh table.
  ghost function RunOps(m: Words, t: Ld, limit: nat, ops: seq<MapOp>): (s: (Words, Ld))
    requires Fresh(m, t, limit) && InRange(ops) && TablesNeeded(ops) <= limit
    ensures WellFormed(s.0, s.1, limit) && s.1.l1Base == t.l1Base
    ensures View(s.0, s.1, limit) == RunFrom(limit, ops)
    ensures SameOutside(m, s.0, t.l1Base, RegionEnd(t, limit))
  {
    if ops == [] then
      FreshIsEmpty(m, t, limit);
      (m, t)
    else
      var s := RunOps(m, t, limit, Init(ops));
      RunOpsStep(s.0, s.1, limit, Last(ops));
      ApplyOp(s.0, s.1, Last(ops))
  }

  lemma RunOpsStep(m: Words, t: Ld, limit: nat, op: MapOp)
    requires WellFormed(m, t, limit) && op.p < PAGES && op.q < PAGES
    requires op.MapPage? ==> HasL3(View(m, t, limit), op.p)
    ensures L3Table(t, t.pageCount) <= LIMIT_32
    ensures var s := ApplyOp(m, t, op);
      && WellFormed(s.0, s.1, limit)
      && View(s.0, s.1, limit) == Apply(View(m, t, limit), op)
      && SameOutside(m, s.0, t.l2Base, RegionEnd(t, limit))
      && s.1 == t.(pageCount := s.1.pageCount)
  {
    match op
    case MapPage(p, q) => SetPageView(m, t, limit, p, q);
    case MapBlock(p, q) => SetBlockView(m, t, limit, p, q);
  }

  // Whatever mappings are made from a fresh table, in whatever order, the hardware translates
  // every 32-bit address as the mappings ask for, as long as the level-3 tables suffice.
  lemma RunTranslates(m: Words, t: Ld, limit: nat, ops: seq<MapOp>, x: u32)
    requires Fresh(m, t, limit) && InRange(ops) && TablesNeeded(ops) <= limit
    ensures Translate(RunOps(m, t, limit, ops).0, t.l1Base, x) == InPage(Meaning(ops, x / 0x1000), x)
  {
    hide LoadD, WalkPage, View, Valid, Lookup, RunOps, RunFrom, Fresh;
    var s := RunOps(m, t, limit, ops);
    RegionOfAddress(x);
    WalkOfTable(s.0, s.1, limit, x / 0x1000);
    RunMeaning(limit, ops, x / 0x1000);
  }

  // Level-3 tables of a run: table descriptors point to pairwise distinct 4 KiB tables, all
  // among the first page_count, and none of them overlaps the level-1 or level-2 tables.
  lemma RunAllocatesDistinctTables(m: Words, t: Ld, limit: nat, ops: seq<MapOp>, r: nat, r': nat)
    requires Fresh(m, t, limit) && InRange(ops) && TablesNeeded(ops) <= limit
    requires r < REGIONS && r' < REGIONS && r != r'
    ensures var s := RunOps(m, t, limit, ops);
      var d, d' := L2Desc(s.0, s.1, r), L2Desc(s.0, s.1, r');
      && s.1.pageCount == TablesNeeded(ops)
      && IsTable(d) == PageWise(ops, r)
      && (IsTable(d) ==> t.l2Base + 0x4000 <= NextTable(d) < L3Table(t, s.1.pageCount) && NextTable(d) % 0x1000 == 0)
      && (IsTable(d) && IsTable(d') ==> NextTable(d) != NextTable(d'))
  {
    var s := RunOps(m, t, limit, ops);
    LinkedTables(s.0, s.1, limit, r);
    LinkedTables(s.0, s.1, limit, r');
  }

  lemma LinkedTables(m: Words, t: Ld, limit: nat, r: nat)
    requires WellFormed(m, t, limit) && r < REGIONS
    ensures var d, e := L2Desc(m, t, r), View(m, t, limit).regions[r];
      IsTable(d) == e.Table? && (IsTable(d) ==> NextTable(d) == L3Table(t, e.index) && NextTable(d) % 0x1000 == 0)
  {
    hide LoadD, LinkedL1, Valid;
    var d, e := L2Desc(m, t, r), View(m, t, limit).regions[r];
    assert e == EntryOf(t, d) && Linked(t, limit, d);
    if IsTable(d) {
      TableAddress(L3Table(t, L3Index(t, d)));
    }
  }

  // ---------------------------------------------------------------------------------------
  // The descriptor arithmetic of the C code
  // ---------------------------------------------------------------------------------------

  lemma L1AddressFields(base: u64, ipa: u64)
    ensures GetField(64, base, 39, 5) < 0x8_0000_0000
    ensures SetField(64, SetField(64, 0, 39, 5, GetField(64, base, 39, 5)), 4, 3, GetField(64, ipa, 31, 30))
         == base / 0x20 % 0x8_0000_0000 * 0x20 + 8 * (ipa / 0x4000_0000 % 4)
  {
    hide GetField, SetField, Pow2, Shr;
    Powers();
    var f := GetField(64, base, 39, 5);
    GetIs(64, base, 39, 5, 0x20, 0x8_0000_0000);
    AppendIs(64, 0, 39, 5, f, 0x20, 0x8_0000_0000);
    GetIs(64, ipa, 31, 30, 0x4000_0000, 4);
    Pow2Monotone(35, 59);
    FillIs(64, f, 4, 3, GetField(64, ipa, 31, 30), 0x20, 8, 4);
  }

  // Bits 39:12 taken from descriptor d, bits 11:3 from the input address.
  lemma NextAddressFields(d: u64, ipa: u64, msb: nat, lsb: nat, q: nat)
    requires lsb <= msb < 64 && msb - lsb == 8 && q == Pow2(lsb)
    ensures SetField(64, 0, 39, 12, GetField(64, d, 39, 12)) == NextTable(d)
    ensures SetField(64, NextTable(d), 11, 3, GetField(64, ipa, msb, lsb)) == NextTable(d) + 8 * (ipa / q % 0x200)
  {
    hide GetField, SetField, Pow2, Shr;
    Powers();
    var f := GetField(64, d, 39, 12);
    GetIs(64, d, 39, 12, 0x1000, 0x1000_0000);
    AppendIs(64, 0, 39, 12, f, 0x1000, 0x1000_0000);
    GetIs(64, ipa, msb, lsb, q, 0x200);
    Pow2Monotone(28, 52);
    FillIs(64, f, 11, 3, GetField(64, ipa, msb, lsb), 0x1000, 8, 0x200);
  }

  // 0b11 with a table address in bits 39:12.
  lemma TableDescFields(a: nat)
    requires a % 0x1000 == 0 && a < LIMIT_32
    ensures Shr(a, 12) == a / 0x1000 && GetField(64, a, 39, 12) == a / 0x1000
    ensures SetField(64, 3, 39, 12, a / 0x1000) == TableDesc(a)
    ensures SetField(64, a, 39, 12, a / 0x1000) == a
  {
    hide GetField, SetField, Pow2, Shr;
    Powers();
    var b := a / 0x1000;
    ShrIs(a, 12, 0x1000);
    GetIs(64, a, 39, 12, 0x1000, 0x1000_0000);
    DivUnique(b, 0x1000_0000, 0, b);
    AppendIs(64, 3, 39, 12, b, 0x1000, 0x1000_0000);
    Pow2Monotone(32, 64);
    SetFieldOverwrites(64, a, 39, 12, 0, 0);
  }

  lemma OutputFields(pa: u32)
    ensures Shr(pa, 21) == pa / 0x20_0000 && GetField(64, pa, 39, 12) == pa / 0x1000
    ensures SetField(64, 0x403, 39, 12, pa / 0x1000) == PageDesc(pa / 0x1000)
    ensures SetField(64, 0x401, 39, 21, pa / 0x20_0000) == BlockDesc(pa / 0x1000)
  {
    hide GetField, SetField, Pow2, Shr;
    Powers();
    var b := pa / 0x1000;
    ShrIs(pa, 21, 0x20_0000);
    GetIs(64, pa, 39, 12, 0x1000, 0x1000_0000);
    DivUnique(b, 0x1000_0000, 0, b);
    AppendIs(64, 0x403, 39, 12, b, 0x1000, 0x1000_0000);
    AppendIs(64, 0x401, 39, 21, pa / 0x20_0000, 0x20_0000, 0x8_0000);
    RegionOfAddress(pa);
  }

  // Bits 1:0.
  lemma TypeField(d: u64)
    ensures GetField(64, d, 1, 0) == d % 4
  {
    hide GetField;
    Powers();
    GetIs(64, d, 1, 0, 1, 4);
  }

  lemma AddressFields(t: Ld, limit: nat, ipa: u64)
    requires Layout(t, limit)
    ensures var p := PageNo(ipa);
      && p < PAGES && p / 0x200 < REGIONS
      && t.l1Base / 0x20 % 0x8_0000_0000 * 0x20 + 8 * (ipa / 0x4000_0000 % 4) == t.l1Base + 8 * (p / 0x4_0000)
      && t.l2Base + 0x1000 * (p / 0x4_0000) + 8 * (ipa / 0x20_0000 % 0x200) == L2Slot(t, p / 0x200)
      && ipa / 0x1000 % 0x200 == p % 0x200
  {
    var p := PageNo(ipa);
    BaseAddress(t.l1Base);
    RegionOfPage(p);
    var h, l := ipa / LIMIT_32, ipa % LIMIT_32;
    assert ipa == h * LIMIT_32 + l;
    DivUnique(ipa, 0x4000_0000, 4 * h + l / 0x4000_0000, l % 0x4000_0000);
    DivUnique(4 * h + l / 0x4000_0000, 4, h, l / 0x4000_0000);
    DivUnique(ipa, 0x20_0000, 0x800 * h + l / 0x20_0000, l % 0x20_0000);
    DivUnique(0x800 * h + l / 0x20_0000, 0x200, 4 * h + l / 0x20_0000 / 0x200, l / 0x20_0000 % 0x200);
    DivUnique(ipa, 0x1000, 0x10_0000 * h + l / 0x1000, l % 0x1000);
    DivUnique(0x10_0000 * h + p, 0x200, 0x800 * h + p / 0x200, p % 0x200);
    RegionOfAddress(l);
    assert l / 0x4000_0000 == p / 0x4_0000;
  }

  // ---------------------------------------------------------------------------------------
  // vmm/pagetable.c
  // ---------------------------------------------------------------------------------------

  lemma L2SlotAligned(t: Ld, limit: nat, r: nat)
    requires Layout(t, limit)
    ensures L2Slot(t, r) % 8 == 0
  {
    PageAligned(t.l1Base, 1);
    Aligned(t.l2Base, r);
  }

  lemma SecondLevelAddress(t: Ld, limit: nat, d: u64, ipa: u64)
    requires Layout(t, limit)
    requires PageNo(ipa) < PAGES && d == TableDesc(t.l2Base + 0x1000 * (PageNo(ipa) / 0x4_0000))
    ensures SetField(64, SetField(64, 0, 39, 12, GetField(64, d, 39, 12)), 11, 3, GetField(64, ipa, 29, 21))
         == L2Slot(t, PageNo(ipa) / 0x200) < LIMIT_32
  {
    hide GetField, SetField, Pow2;
    var i := PageNo(ipa) / 0x4_0000;
    Powers();
    AddressFields(t, limit, ipa);
    RegionOfPage(PageNo(ipa));
    DivUnique(t.l2Base + 0x1000 * i, 0x1000, t.l1Base / 0x1000 + 1 + i, 0);
    TableAddress(t.l2Base + 0x1000 * i);
    NextAddressFields(d, ipa, 29, 21, 0x20_0000);
  }

  // More level-3 tables than the cleared ones are usable, empty, exactly if the memory behind
  // the cleared ones was zero before.
  lemma MoreClearedTables(m0: Words, m: Words, t: Ld, limit: nat)
    requires Fresh(m, t, CLEARED_L3) && CLEARED_L3 <= limit && RegionEnd(t, limit) <= LIMIT_32
    requires SameOutside(m0, m, t.l1Base, RegionEnd(t, CLEARED_L3))
    ensures Fresh(m, t, limit) <==> ZeroOn(m0, RegionEnd(t, CLEARED_L3), RegionEnd(t, limit))
  {
    hide LinkedL1;
    if ZeroOn(m0, RegionEnd(t, CLEARED_L3), RegionEnd(t, limit)) {
      forall a | t.l2Base <= a < RegionEnd(t, limit) && a % 4 == 0
        ensures LoadW(m, a) == 0
      {
      }
    }
    if Fresh(m, t, limit) {
      forall a | RegionEnd(t, CLEARED_L3) <= a < RegionEnd(t, limit) && a % 4 == 0
        ensures LoadW(m0, a) == 0
      {
        assert LoadW(m, a) == LoadW(m0, a);
      }
    }
  }

  lemma ZeroExtends(m: Words, lo: int, base: nat, i: nat)
    requires base % 0x1000 == 0 && ZeroOn(m, lo, base + 8 * i)
    ensures ZeroOn(StoreD(m, base + 8 * i, 0), lo, base + 8 * i + 8)
  {
    Aligned(base, i);
    var hi := base + 8 * i;
    forall a | lo <= a < hi + 8 && a % 4 == 0
      ensures LoadW(StoreD(m, hi, 0), a) == 0
    {
      if a < hi {
        assert LoadW(m, a) == 0;
      } else {
        var k := a / 4 - hi / 4;
        assert a == hi + 4 * k;
        assert k == 0 || k == 1;
      }
    }
  }

  lemma LinkedL1Extends(m: Words, l1: nat, l2: nat, n: nat, addr: nat, d: u64)
    requires LinkedUpTo(m, l1, l2, n) && addr == l1 + 8 * n && d == TableDesc(l2 + 0x1000 * n)
    ensures LinkedUpTo(StoreD(m, addr, d), l1, l2, n + 1)
  {
    hide LoadD, StoreD, TableDesc;
    forall j | 0 <= j <= n
      ensures L1Desc(StoreD(m, l1 + 8 * n, d), l1, j) == TableDesc(l2 + 0x1000 * j)
    {
      LoadStoreD(m, l1 + 8 * n, d, l1 + 8 * j);
      assert j < n ==> L1Desc(m, l1, j) == TableDesc(l2 + 0x1000 * j);
    }
  }

  class PagetableLd {
    var l1Base: u64
    var l2Base: u64
    var l3Base: u64
    var pageCount: u32

    constructor ()
    {
      l1Base, l2Base, l3Base, pageCount := 0, 0, 0, 0;
    }

    ghost function Val(): Ld
      reads this
    {
      Ld(l1Base, l2Base, l3Base, pageCount)
    }

    // pagetable_init
    method Init(mem: Memory, base: u64)
      requires base % 0x1000 == 0 && base + 0xD000 <= LIMIT_32
      modifies this, mem
      ensures Val() == Ld(base, base + 0x1000, base + 0x5000, 0)
      ensures Fresh(mem.words, Val(), CLEARED_L3)
      ensures SameOutside(old(mem.words), mem.words, base, base + 0xD000)
    {
      l1Base := base;
      l2Base := base + 0x1000;
      l3Base := base + 0x5000;
      pageCount := 0;
      LinkL1(mem);
      ClearL2L3(mem);
    }

    // The first loop of pagetable_init: one level-1 table with four entries.
    method LinkL1(mem: Memory)
      requires Layout(Val(), CLEARED_L3)
      modifies mem
      ensures LinkedL1(mem.words, Val()) && SameOutside(old(mem.words), mem.words, l1Base, l2Base)
    {
      assert LinkedUpTo(mem.words, l1Base, l2Base, 0);
      hide LoadD, StoreD, SetField, Shr, LinkedUpTo;
      for i := 0 to 4
        invariant LinkedUpTo(mem.words, l1Base, l2Base, i)
        invariant SameOutside(old(mem.words), mem.words, l1Base, l2Base)
      {
        Aligned(l1Base, i);
        PageAligned(l1Base, 1 + i);
        LinkOne(mem, i, l1Base + 8 * i, l2Base + 0x1000 * i);
      }
    }

    method LinkOne(mem: Memory, ghost i: nat, addr: u32, l2Addr: u32)
      requires LinkedUpTo(mem.words, l1Base, l2Base, i)
      requires addr == l1Base + 8 * i <= l2Base - 8 && addr % 8 == 0
      requires l2Addr == l2Base + 0x1000 * i && l2Addr % 0x1000 == 0
      modifies mem
      ensures LinkedUpTo(mem.words, l1Base, l2Base, i + 1)
      ensures SameOutside(old(mem.words), mem.words, l1Base, l2Base)
    {
      hide LoadD, StoreD, SetField, Shr, LinkedUpTo;
      TableDescFields(l2Addr);
      var desc := SetField(64, 3, 39, 12, Shr(l2Addr, 12));
      LinkedL1Extends(mem.words, l1Base, l2Base, i, addr, desc);
      StoreDFrame(mem.words, addr, desc, l1Base, l2Base);
      mem.WriteD(addr, desc);
    }

    // The other two loops: four level-2 tables and eight level-3 tables, all entries invalid.
    method ClearL2L3(mem: Memory)
      requires Layout(Val(), CLEARED_L3) && LinkedL1(mem.words, Val())
      modifies mem
      ensures LinkedL1(mem.words, Val()) && ZeroOn(mem.words, l2Base, l3Base + 0x8000)
      ensures SameOutside(old(mem.words), mem.words, l2Base, l3Base + 0x8000)
    {
      hide LinkedL1, ZeroOn;
      ClearL2(mem);
      ClearL3(mem);
    }

    method ClearL2(mem: Memory)
      requires Layout(Val(), CLEARED_L3) && LinkedL1(mem.words, Val())
      modifies mem
      ensures LinkedL1(mem.words, Val()) && ZeroOn(mem.words, l2Base, l3Base)
      ensures SameOutside(old(mem.words), mem.words, l2Base, l3Base)
    {
      hide LinkedL1, LoadW;
      for i := 0 to 4 * 512
        invariant LinkedL1(mem.words, Val()) && ZeroOn(mem.words, l2Base, l2Base + 8 * i)
        invariant SameOutside(old(mem.words), mem.words, l2Base, l3Base)
      {
        ClearOne(mem, l2Base, i);
      }
    }

    method ClearL3(mem: Memory)
      requires Layout(Val(), CLEARED_L3) && LinkedL1(mem.words, Val()) && ZeroOn(mem.words, l2Base, l3Base)
      modifies mem
      ensures LinkedL1(mem.words, Val()) && ZeroOn(mem.words, l2Base, l3Base + 0x8000)
      ensures SameOutside(old(mem.words), mem.words, l3Base, l3Base + 0x8000)
    {
      hide LinkedL1, LoadW;
      for i := 0 to 8 * 512
        invariant LinkedL1(mem.words, Val()) && ZeroOn(mem.words, l2Base, l3Base + 8 * i)
        invariant SameOutside(old(mem.words), mem.words, l3Base, l3Base + 0x8000)
      {
        ClearOne(mem, l3Base, i);
      }
    }

    // One iteration: an invalid descriptor in entry i of the tables at base.
    method ClearOne(mem: Memory, base: u64, i: nat)
      requires Layout(Val(), CLEARED_L3) && LinkedL1(mem.words, Val())
      requires base % 0x1000 == 0 && l2Base <= base && base + 8 * i + 8 <= l3Base + 0x8000
      requires ZeroOn(mem.words, l2Base, base + 8 * i)
      modifies mem
      ensures LinkedL1(mem.words, Val()) && ZeroOn(mem.words, l2Base, base + 8 * i + 8)
      ensures SameOutside(old(mem.words), mem.words, base + 8 * i, base + 8 * i + 8)
    {
      Aligned(base, i);
      ZeroExtends(mem.words, l2Base, base, i);
      L1Kept(mem.words, StoreD(mem.words, base + 8 * i, 0), Val());
      mem.WriteD(base + 8 * i, 0);
    }

    // The descriptor lookup that pagetable_set_block and pagetable_set_page start with: the
    // level-1 descriptor of ipa, then the address of its level-2 descriptor.
    method FindL1(mem: Memory, ipa: u64, ghost limit: nat) returns (l1Desc: u64)
      requires WellFormed(mem.words, Val(), limit)
      ensures PageNo(ipa) < PAGES && l1Desc == TableDesc(l2Base + 0x1000 * (PageNo(ipa) / 0x4_0000))
      ensures Layout(Val(), limit)
    {
      hide LoadD, GetField, SetField, View, Valid, LinkedL2;
      ghost var i := PageNo(ipa) / 0x4_0000;
      AddressFields(Val(), limit, ipa);
      RegionOfPage(PageNo(ipa));
      L1AddressFields(l1Base, ipa);
      Aligned(l1Base, i);
      var l1DescAddr := SetField(64, 0, 39, 5, GetField(64, l1Base, 39, 5));
      l1DescAddr := SetField(64, l1DescAddr, 4, 3, GetField(64, ipa, 31, 30));
      l1Desc := mem.ReadD(l1DescAddr);
      assert l1Desc == L1Desc(mem.words, l1Base, i);
    }

    method FindL2(mem: Memory, ipa: u64, ghost limit: nat) returns (l2DescAddr: u32)
      requires WellFormed(mem.words, Val(), limit)
      ensures PageNo(ipa) < PAGES && l2DescAddr == L2Slot(Val(), PageNo(ipa) / 0x200) && l2DescAddr % 8 == 0
    {
      hide GetField, SetField, WellFormed, Layout, PageNo, L2Slot, TableDesc;
      var l1Desc := FindL1(mem, ipa, limit);
      SecondLevelAddress(Val(), limit, l1Desc, ipa);
      L2SlotAligned(Val(), limit, PageNo(ipa) / 0x200);
      var addr := SetField(64, 0, 39, 12, GetField(64, l1Desc, 39, 12));
      l2DescAddr := SetField(64, addr, 11, 3, GetField(64, ipa, 29, 21));
    }

    // pagetable_set_block
    method SetBlock(mem: Memory, ipa: u64, pa: u32, ghost limit: nat)
      requires WellFormed(mem.words, Val(), limit)
      modifies mem
      ensures PageNo(ipa) < PAGES
      ensures mem.words == SetBlockSpec(old(mem.words), Val(), PageNo(ipa), pa / 0x1000)
      ensures WellFormed(mem.words, Val(), limit)
      ensures View(mem.words, Val(), limit)
        == TableModel.SetBlock(View(old(mem.words), Val(), limit), PageNo(ipa), pa / 0x1000)
      ensures SameOutside(old(mem.words), mem.words, l2Base, RegionEnd(Val(), limit))
    {
      hide GetField, SetField, View, Shr, StoreD, WellFormed, TableModel.SetBlock;
      PageNoBound(ipa);
      SetBlockView(mem.words, Val(), limit, PageNo(ipa), pa / 0x1000);
      var l2DescAddr := FindL2(mem, ipa, limit);
      OutputFields(pa);
      var l2Desc := SetField(64, 0x401, 39, 21, Shr(pa, 21)); // AF + block
      mem.WriteD(l2DescAddr, l2Desc);
    }

    // pagetable_set_page
    method SetPage(mem: Memory, ipa: u64, pa: u32, ghost limit: nat)
      requires WellFormed(mem.words, Val(), limit) && PageNo(ipa) < PAGES
      requires HasL3(View(mem.words, Val(), limit), PageNo(ipa))
      modifies this`pageCount, mem
      ensures L3Table(old(Val()), old(pageCount)) <= LIMIT_32
      ensures (mem.words, Val()) == SetPageSpec(old(mem.words), old(Val()), PageNo(ipa), pa / 0x1000)
      ensures WellFormed(mem.words, Val(), limit)
      ensures View(mem.words, Val(), limit)
        == TableModel.SetPage(View(old(mem.words), old(Val()), limit), PageNo(ipa), pa / 0x1000)
      ensures SameOutside(old(mem.words), mem.words, l2Base, RegionEnd(Val(), limit))
    {
      ghost var p := PageNo(ipa);
      ViewShape(mem.words, Val(), limit);
      SetPageView(mem.words, Val(), limit, p, pa / 0x1000);
      SetPageCode(mem, ipa, pa, limit);
    }

    method SetPageCode(mem: Memory, ipa: u64, pa: u32, ghost limit: nat)
      requires WellFormed(mem.words, Val(), limit) && PageNo(ipa) < PAGES
      requires HasL3(View(mem.words, Val(), limit), PageNo(ipa))
      modifies this`pageCount, mem
      ensures L3Table(old(Val()), old(pageCount)) <= LIMIT_32
      ensures (mem.words, Val()) == SetPageSpec(old(mem.words), old(Val()), PageNo(ipa), pa / 0x1000)
    {
      hide GetField, SetField, LoadD, StoreD, Pow2, Valid, LinkedL1, LinkedL2, FillSpec, Linked;
      ghost var p := PageNo(ipa);
      EntryOfRegion(mem.words, Val(), limit, p);
      var l2DescAddr := FindL2(mem, ipa, limit);
      var l2Desc := mem.ReadD(l2DescAddr);
      assert l2Desc == L2Desc(mem.words, Val(), p / 0x200);

      var l3DescAddr := 0;
      TypeField(l2Desc);
      if GetField(64, l2Desc, 1, 0) != 3 {
        l3DescAddr, l2Desc := NewL3(mem, l2DescAddr, p / 0x200, limit);
      }
      FillL3(mem, ipa, pa, l2Desc, l3DescAddr, limit);
    }

    // The branch that gives a region a new level-3 table.
    method NewL3(mem: Memory, l2DescAddr: u32, ghost r: nat, ghost limit: nat) returns (l3DescAddr: u64, l2Desc: u64)
      requires Layout(Val(), limit) && pageCount < limit
      requires l2DescAddr == L2Slot(Val(), r) && l2DescAddr % 8 == 0
      modifies this`pageCount, mem
      ensures (mem.words, Val()) == LinkSpec(old(mem.words), old(Val()), r)
      ensures l3DescAddr == L3Table(old(Val()), old(pageCount)) && l2Desc == TableDesc(l3DescAddr)
      ensures IsTable(l2Desc) && Linked(Val(), limit, l2Desc) && L3Index(Val(), l2Desc) == old(pageCount)
    {
      hide GetField, SetField, StoreD;
      LinkedAddress(Val(), limit, pageCount);
      DecodeTableDesc(Val(), pageCount, TableDesc(L3Table(Val(), pageCount)));
      l3DescAddr := l3Base + pageCount * 0x1000;
      pageCount := pageCount + 1;

      TableDescFields(l3DescAddr);
      l2Desc := SetField(64, 3, 39, 12, GetField(64, l3DescAddr, 39, 12));
      mem.WriteD(l2DescAddr, l2Desc);
    }

    // The end of pagetable_set_page: write the level-3 descriptor of ipa.
    method FillL3(mem: Memory, ipa: u64, pa: u32, l2Desc: u64, l3DescAddr: u64, ghost limit: nat)
      requires Layout(Val(), limit) && IsTable(l2Desc) && Linked(Val(), limit, l2Desc)
      requires l3DescAddr == 0 || l3DescAddr == L3Table(Val(), L3Index(Val(), l2Desc))
      modifies mem
      ensures mem.words == FillSpec(old(mem.words), Val(), L3Index(Val(), l2Desc), PageNo(ipa) % 0x200, pa / 0x1000)
    {
      hide GetField, SetField, StoreD, Shr, Layout, Linked, IsTable, L3Index, L3Slot, PageNo, BlockDesc;
      LeafAddress(Val(), limit, l2Desc, ipa, l3DescAddr);
      var addr := SetField(64, l3DescAddr, 39, 12, GetField(64, l2Desc, 39, 12));
      addr := SetField(64, addr, 11, 3, GetField(64, ipa, 20, 12));

      OutputFields(pa);
      var l3Desc := SetField(64, 0x403, 39, 12, GetField(64, pa, 39, 12)); // AF + page
      mem.WriteD(addr, l3Desc);
    }
  }

  ghost function Vals(pts: seq<PagetableLd>): (ts: seq<Ld>)
    reads pts
    ensures |ts| == |pts| && forall i :: 0 <= i < |pts| ==> ts[i] == pts[i].Val()
  {
    seq(|pts|, i requires 0 <= i < |pts| reads pts => pts[i].Val())
  }

  lemma LinkedAddress(t: Ld, limit: nat, k: nat)
    requires Layout(t, limit) && k < limit
    ensures L3Table(t, k) % 0x1000 == 0 && L3Table(t, k) + 0x1000 <= LIMIT_32
  {
    DivUnique(L3Table(t, k), 0x1000, t.l1Base / 0x1000 + 5 + k, 0);
  }

  lemma LeafAddress(t: Ld, limit: nat, d: u64, ipa: u64, a: nat)
    requires Layout(t, limit) && IsTable(d) && Linked(t, limit, d) && (a == 0 || a == L3Table(t, L3Index(t, d)))
    ensures var slot := L3Slot(t, 0x200 * L3Index(t, d) + PageNo(ipa) % 0x200);
      && SetField(64, SetField(64, a, 39, 12, GetField(64, d, 39, 12)), 11, 3, GetField(64, ipa, 20, 12)) == slot
      && 0 <= slot < LIMIT_32 && slot % 8 == 0
  {
    hide GetField, SetField;
    var k, e := L3Index(t, d), PageNo(ipa) % 0x200;
    AddressFields(t, limit, ipa);
    LinkedAddress(t, limit, k);
    FieldOfL3(d, ipa, a, L3Table(t, k));
    PageAligned(t.l1Base, 5);
    Aligned(t.l3Base, 0x200 * k + e);
  }

  // The address of the level-3 descriptor: l3_desc_addr starts as zero, or as the address of
  // the table just linked.
  lemma FieldOfL3(d: u64, ipa: u64, a: nat, b: nat)
    requires b % 0x1000 == 0 && b < LIMIT_32 && d == TableDesc(b) && (a == 0 || a == b)
    ensures SetField(64, SetField(64, a, 39, 12, GetField(64, d, 39, 12)), 11, 3, GetField(64, ipa, 20, 12))
         == b + 8 * (ipa / 0x1000 % 0x200)
  {
    hide GetField, SetField, Pow2;
    Powers();
    TableAddress(b);
    TableDescFields(b);
    NextAddressFields(d, ipa, 20, 12, 0x1000);
    GetIs(64, d, 39, 12, 0x1000, 0x1000_0000);
    DivUnique(d, 0x1000, b / 0x1000, 3);
    DivUnique(b / 0x1000, 0x1000_0000, 0, b / 0x1000);
  }
}
