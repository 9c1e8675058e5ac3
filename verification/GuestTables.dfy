// The tables of one guest: guest_rpb_init_pt_static, which maps RAM by blocks, and
// guest_rpb_init_pt, which maps no RAM (guests/guest_rpb.c).
module GuestTables {
  import opened Options
  import opened BitOps
  import opened PhysMem
  import opened Walker
  import opened TableModel
  import opened PageTable

  // The parameters of guest_rpb_init and the two functions.
  datatype Config = Config(memBasePa: u32, memSize: u32, ptBase: u32, uart: u32,
                           timer0: u32, timer2: u32, vcpuIf: u32, blackHole: u32)

  const HIGH_PAGE: nat := 0x7_0000

  // The end of the region with room for `limit` level-3 tables.
  function TableTop(c: Config, limit: nat): nat {
    c.ptBase + 0x5000 + 0x1000 * limit
  }

  // The RAM windows stay clear of the device pages, and the tables fit below 4 GiB.
  predicate Supported(c: Config, limit: nat) {
    && c.memSize <= 0x1000_0000 && c.ptBase % 0x1000 == 0
    && CLEARED_L3 <= limit && TableTop(c, limit) <= LIMIT_32
  }

  // The 2 MiB blocks that cover mem_size.
  function Blocks(c: Config): nat {
    (c.memSize + 0x1F_FFFF) / 0x20_0000
  }

  lemma BlocksBound(c: Config, limit: nat)
    requires Supported(c, limit)
    ensures Blocks(c) <= 0x80
  {
  }

  // The output page of RAM page p, in 32-bit arithmetic.
  function Frame(c: Config, p: nat): nat {
    (c.memBasePa / 0x20_0000 * 0x200 + p) % PAGES
  }

  // The first k blocks of RAM, low and high.
  function RamPage(c: Config, k: nat, p: nat): Option<nat> {
    if p < 0x200 * k then Some(Frame(c, p))
    else if HIGH_PAGE <= p < HIGH_PAGE + 0x200 * k then Some(Frame(c, p - HIGH_PAGE))
    else None
  }

  // The device pages in the order the code maps them, and what they are mapped to.
  function DevicePage(i: nat): nat
    requires i < 5
  {
    [0x1_0009, 0x1_0011, 0x1_0012, 0x1_E000, 0x2_0000][i]
  }

  function DeviceOut(c: Config, i: nat): u32
    requires i < 5
  {
    [c.uart, c.timer0, c.timer2, c.vcpuIf, c.blackHole][i]
  }

  // The first n device pages.
  function DeviceAt(c: Config, n: nat, p: nat): Option<nat>
    requires n <= 5
  {
    if n == 0 then None
    else if p == DevicePage(n - 1) then Some(DeviceOut(c, n - 1) / 0x1000)
    else DeviceAt(c, n - 1, p)
  }

  // The map after k blocks and n device pages.
  function BasePage(c: Config, k: nat, n: nat, p: nat): Option<nat>
    requires n <= 5
  {
    match DeviceAt(c, n, p)
    case Some(q) => Some(q)
    case None => RamPage(c, k, p)
  }

  // The map the static configuration promises: RAM twice, five device pages, nothing else.
  function StaticPage(c: Config, p: nat): Option<nat> {
    if p == 0x1_0009 then Some(c.uart / 0x1000)
    else if p == 0x1_0011 then Some(c.timer0 / 0x1000)
    else if p == 0x1_0012 then Some(c.timer2 / 0x1000)
    else if p == 0x1_E000 then Some(c.vcpuIf / 0x1000)
    else if p == 0x2_0000 then Some(c.blackHole / 0x1000)
    else RamPage(c, Blocks(c), p)
  }

  function StaticMap(c: Config, x: u32): Option<nat> {
    InPage(StaticPage(c, x / 0x1000), x)
  }

  lemma StaticIsBase(c: Config, p: nat)
    ensures BasePage(c, Blocks(c), 5, p) == StaticPage(c, p)
  {
    hide Frame;
    assert DeviceAt(c, 5, p) == if p == 0x2_0000 then Some(c.blackHole / 0x1000) else DeviceAt(c, 4, p);
    assert DeviceAt(c, 4, p) == if p == 0x1_E000 then Some(c.vcpuIf / 0x1000) else DeviceAt(c, 3, p);
    assert DeviceAt(c, 3, p) == if p == 0x1_0012 then Some(c.timer2 / 0x1000) else DeviceAt(c, 2, p);
    assert DeviceAt(c, 2, p) == if p == 0x1_0011 then Some(c.timer0 / 0x1000) else DeviceAt(c, 1, p);
    assert DeviceAt(c, 1, p) == if p == 0x1_0009 then Some(c.uart / 0x1000) else None;
  }

  // RAM as the guest sees it, for every aligned base: address x and its alias are mem_base_pa + x.
  lemma RamIsMapped(c: Config, limit: nat, x: nat)
    requires Supported(c, limit) && c.memBasePa % 0x20_0000 == 0 && c.memBasePa + c.memSize <= LIMIT_32
    requires x < c.memSize
    ensures StaticMap(c, x) == Some(c.memBasePa + x)
    ensures StaticMap(c, 0x7000_0000 + x) == Some(c.memBasePa + x)
  {
    var p, o, b := x / 0x1000, x % 0x1000, c.memBasePa / 0x20_0000;
    DivUnique(0x7000_0000 + x, 0x1000, HIGH_PAGE + p, o);
    DivUnique(b * 0x200 + p, PAGES, 0, b * 0x200 + p);
    assert Frame(c, p) == b * 0x200 + p && p < 0x200 * Blocks(c);
    assert c.memBasePa + x == (b * 0x200 + p) * 0x1000 + o;
  }

  // ---------------------------------------------------------------------------------------
  // The decoded table while it is built
  // ---------------------------------------------------------------------------------------

  // 2 MiB regions of the first k blocks.
  predicate BlockRegion(k: nat, r: nat) {
    r < k || 0x380 <= r < 0x380 + k
  }

  ghost function DeviceRegions(n: nat): (s: set<nat>)
    requires n <= 5
    ensures |s| <= n
  {
    if n == 0 then {} else DeviceRegions(n - 1) + {DevicePage(n - 1) / 0x200}
  }

  ghost predicate BuildTab(v: Tab, c: Config, k: nat, n: nat, limit: nat)
    requires n <= 5
  {
    && Tidy(v, limit)
    && TableRegions(v) == DeviceRegions(n)
    && (forall r :: 0 <= r < REGIONS && v.regions[r].Block? ==> BlockRegion(k, r))
    && (forall p :: 0 <= p < PAGES ==> Lookup(v, p) == BasePage(c, k, n, p))
  }

  lemma EmptyIsBuilt(c: Config, limit: nat)
    ensures BuildTab(EmptyTab(limit), c, 0, 0, limit)
  {
    EmptyIsTidy(limit);
  }

  // The output page of block k.
  function BlockFrame(c: Config, k: nat): nat {
    (c.memBasePa + 0x20_0000 * k) % LIMIT_32 / 0x1000
  }

  lemma FrameOfBlock(c: Config, k: nat, e: nat)
    requires e < 0x200
    ensures BlockFrame(c, k) < PAGES
    ensures BlockFrame(c, k) / 0x200 * 0x200 + e == Frame(c, 0x200 * k + e)
  {
    var b, l := c.memBasePa / 0x20_0000, c.memBasePa % 0x20_0000;
    var h, m := (b + k) / 0x800, (b + k) % 0x800;
    DivUnique(c.memBasePa + 0x20_0000 * k, LIMIT_32, h, 0x20_0000 * m + l);
    DivUnique(0x20_0000 * m + l, 0x1000, 0x200 * m + l / 0x1000, l % 0x1000);
    DivUnique(0x200 * m + l / 0x1000, 0x200, m, l / 0x1000);
    DivUnique(b * 0x200 + 0x200 * k + e, PAGES, h, 0x200 * m + e);
  }

  // One more block, low and high.
  lemma RamStep(v: Tab, c: Config, k: nat, limit: nat)
    requires BuildTab(v, c, k, 0, limit) && k < 0x80
    ensures BlockFrame(c, k) < PAGES
    ensures var v1 := SetBlock(v, 0x200 * k, BlockFrame(c, k));
      && Valid(v1)
      && BuildTab(SetBlock(v1, HIGH_PAGE + 0x200 * k, BlockFrame(c, k)), c, k + 1, 0, limit)
  {
    hide Lookup, SetBlock, Frame, BlockFrame, Valid;
    FrameOfBlock(c, k, 0);
    var q, lo, hi := BlockFrame(c, k), 0x200 * k, HIGH_PAGE + 0x200 * k;
    DivUnique(lo, 0x200, k, 0);
    DivUnique(hi, 0x200, 0x380 + k, 0);
    NoTables(v, limit);
    MapBlockOn(v, limit, lo, q);
    var v1 := SetBlock(v, lo, q);
    NoTables(v1, limit);
    MapBlockOn(v1, limit, hi, q);
    forall p | 0 <= p < PAGES
      ensures Lookup(SetBlock(v1, hi, q), p) == BasePage(c, k + 1, 0, p)
    {
      var r, e := p / 0x200, p % 0x200;
      assert p == 0x200 * r + e;
      FrameOfBlock(c, k, e);
      assert Lookup(v, p) == BasePage(c, k, 0, p);
    }
  }

  lemma NoTables(v: Tab, limit: nat)
    requires Tidy(v, limit) && TableRegions(v) == {}
    ensures |v.regions| == REGIONS && forall r :: 0 <= r < REGIONS ==> !v.regions[r].Table?
  {
    forall r | 0 <= r < REGIONS
      ensures !v.regions[r].Table?
    {
      assert r !in TableRegions(v);
    }
  }

  // The region of the next device page is none of the blocks.
  lemma DeviceRegion(k: nat, n: nat)
    requires n < 5 && k <= 0x80
    ensures DevicePage(n) < PAGES && !BlockRegion(k, DevicePage(n) / 0x200)
    ensures DeviceRegions(n + 1) == DeviceRegions(n) + {DevicePage(n) / 0x200}
  {
  }

  lemma NextDevice(c: Config, k: nat, n: nat, x: nat)
    requires n < 5
    ensures BasePage(c, k, n + 1, x)
         == if x == DevicePage(n) then Some(DeviceOut(c, n) / 0x1000) else BasePage(c, k, n, x)
  {
    hide RamPage;
  }

  // One more device page.
  lemma DeviceStep(v: Tab, c: Config, k: nat, n: nat, limit: nat)
    requires n < 5 && k <= 0x80 && CLEARED_L3 <= limit && BuildTab(v, c, k, n, limit)
    ensures Valid(v) && |v.leaves| % 0x200 == 0 && DevicePage(n) < PAGES && HasL3(v, DevicePage(n))
    ensures BuildTab(SetPage(v, DevicePage(n), DeviceOut(c, n) / 0x1000), c, k, n + 1, limit)
  {
    hide Lookup, BasePage, SetPage, Tidy, TableRegions, HasL3, DevicePage, DeviceOut;
    var p, q := DevicePage(n), DeviceOut(c, n) / 0x1000;
    TidyShape(v, limit);
    DeviceRegion(k, n);
    MapPageOn(v, limit, p, q);
    forall x | 0 <= x < PAGES
      ensures Lookup(SetPage(v, p, q), x) == BasePage(c, k, n + 1, x)
    {
      NextDevice(c, k, n, x);
    }
  }

  // ---------------------------------------------------------------------------------------
  // guests/guest_rpb.c
  // ---------------------------------------------------------------------------------------

  ghost predicate Maps(mem: Memory, pt: PagetableLd, c: Config, k: nat, n: nat, limit: nat)
    requires n <= 5
    reads mem, pt
  {
    && pt.l1Base == c.ptBase
    && WellFormed(mem.words, pt.Val(), limit)
    && BuildTab(View(mem.words, pt.Val(), limit), c, k, n, limit)
  }

  // pagetable_init, with `limit` usable level-3 tables: those behind the cleared ones have to be
  // zero already.
  method StartTables(mem: Memory, pt: PagetableLd, c: Config, ghost limit: nat)
    requires Supported(c, limit) && ZeroOn(mem.words, c.ptBase + 0xD000, TableTop(c, limit))
    modifies mem, pt
    ensures Maps(mem, pt, c, 0, 0, limit)
    ensures SameOutside(old(mem.words), mem.words, c.ptBase, TableTop(c, limit))
  {
    hide BuildTab, View, LinkedL1, LinkedL2, ZeroOn;
    pt.Init(mem, c.ptBase);
    MoreClearedTables(old(mem.words), mem.words, pt.Val(), limit);
    FreshIsEmpty(mem.words, pt.Val(), limit);
    EmptyIsBuilt(c, limit);
  }

  lemma BlockPageNo(k: nat)
    requires k < 0x80
    ensures PageNo(0x20_0000 * k) == 0x200 * k && PageNo(0x7000_0000 + 0x20_0000 * k) == HIGH_PAGE + 0x200 * k
  {
    DivUnique(0x20_0000 * k, LIMIT_32, 0, 0x20_0000 * k);
    DivUnique(0x7000_0000 + 0x20_0000 * k, LIMIT_32, 0, 0x7000_0000 + 0x20_0000 * k);
    DivUnique(0x20_0000 * k, 0x1000, 0x200 * k, 0);
    DivUnique(0x7000_0000 + 0x20_0000 * k, 0x1000, HIGH_PAGE + 0x200 * k, 0);
  }

  lemma LayoutOf(m: Words, t: Ld, c: Config, limit: nat)
    requires WellFormed(m, t, limit) && t.l1Base == c.ptBase
    ensures t.l2Base == c.ptBase + 0x1000 && RegionEnd(t, limit) == TableTop(c, limit)
  {
  }

  // One round of the RAM loop.
  method MapBlocks(mem: Memory, pt: PagetableLd, c: Config, offset: u32, ghost k: nat, ghost limit: nat)
    requires Supported(c, limit) && Maps(mem, pt, c, k, 0, limit) && k < 0x80 && offset == 0x20_0000 * k
    modifies mem
    ensures Maps(mem, pt, c, k + 1, 0, limit)
    ensures SameOutside(old(mem.words), mem.words, c.ptBase, TableTop(c, limit))
  {
    hide BuildTab, WellFormed, TableModel.SetBlock, SetBlockSpec, TableTop, RegionEnd, View;
    LayoutOf(mem.words, pt.Val(), c, limit);
    RamStep(View(mem.words, pt.Val(), limit), c, k, limit);
    BlockPageNo(k);
    pt.SetBlock(mem, offset, (c.memBasePa + offset) % LIMIT_32, limit);
    LayoutOf(mem.words, pt.Val(), c, limit);
    pt.SetBlock(mem, 0x7000_0000 + offset, (c.memBasePa + offset) % LIMIT_32, limit); // the alias
  }

  method MapDevice(mem: Memory, pt: PagetableLd, ghost c: Config, ipa: u64, pa: u32, ghost k: nat, ghost n: nat,
                   ghost limit: nat)
    requires Supported(c, limit) && n < 5 && k <= 0x80 && Maps(mem, pt, c, k, n, limit)
    requires PageNo(ipa) == DevicePage(n) && pa == DeviceOut(c, n)
    modifies mem, pt`pageCount
    ensures Maps(mem, pt, c, k, n + 1, limit)
    ensures SameOutside(old(mem.words), mem.words, c.ptBase, TableTop(c, limit))
  {
    hide BuildTab, WellFormed, TableModel.SetPage, SetPageSpec, TableTop, RegionEnd, View, HasL3, Valid;
    PageNoBound(ipa);
    LayoutOf(mem.words, pt.Val(), c, limit);
    DeviceStep(View(mem.words, pt.Val(), limit), c, k, n, limit);
    pt.SetPage(mem, ipa, pa, limit);
    LayoutOf(mem.words, pt.Val(), c, limit);
  }

  // guest_rpb_init_pt; returns the value for the guest's saved VTTBR.
  method InitPt(mem: Memory, pt: PagetableLd, c: Config, ghost limit: nat) returns (vttbr: u64)
    requires Supported(c, limit) && ZeroOn(mem.words, c.ptBase + 0xD000, TableTop(c, limit))
    modifies mem, pt
    ensures vttbr == c.ptBase && Maps(mem, pt, c, 0, 5, limit)
    ensures SameOutside(old(mem.words), mem.words, c.ptBase, TableTop(c, limit))
  {
    hide Maps, TableTop;
    StartTables(mem, pt, c, limit);
    MapDevice(mem, pt, c, 0x1000_9000, c.uart, 0, 0, limit);
    MapDevice(mem, pt, c, 0x1001_1000, c.timer0, 0, 1, limit);
    MapDevice(mem, pt, c, 0x1001_2000, c.timer2, 0, 2, limit);
    MapDevice(mem, pt, c, 0x1E00_0000, c.vcpuIf, 0, 3, limit);
    MapDevice(mem, pt, c, 0x2000_0000, c.blackHole, 0, 4, limit);
    vttbr := c.ptBase;
  }

  // guest_rpb_init_pt_static; returns the value for the guest's saved VTTBR.
  method InitPtStatic(mem: Memory, pt: PagetableLd, c: Config, ghost limit: nat) returns (vttbr: u64)
    requires Supported(c, limit) && ZeroOn(mem.words, c.ptBase + 0xD000, TableTop(c, limit))
    modifies mem, pt
    ensures vttbr == c.ptBase && Maps(mem, pt, c, Blocks(c), 5, limit)
    ensures forall x: u32 :: Translate(mem.words, vttbr, x) == StaticMap(c, x)
    ensures SameOutside(old(mem.words), mem.words, c.ptBase, TableTop(c, limit))
  {
    hide Maps, TableTop, Translate, StaticMap;
    BlocksBound(c, limit);
    StartTables(mem, pt, c, limit);

    var offset := 0;
    ghost var k := 0;
    while offset < c.memSize
      invariant offset == 0x20_0000 * k && k <= Blocks(c)
      invariant Maps(mem, pt, c, k, 0, limit)
      invariant SameOutside(old(mem.words), mem.words, c.ptBase, TableTop(c, limit))
    {
      MapBlocks(mem, pt, c, offset, k, limit);
      offset := offset + 0x20_0000;
      k := k + 1;
    }
    assert k == Blocks(c);

    MapDevice(mem, pt, c, 0x1000_9000, c.uart, k, 0, limit);
    MapDevice(mem, pt, c, 0x1001_1000, c.timer0, k, 1, limit);
    MapDevice(mem, pt, c, 0x1001_2000, c.timer2, k, 2, limit);
    MapDevice(mem, pt, c, 0x1E00_0000, c.vcpuIf, k, 3, limit);
    MapDevice(mem, pt, c, 0x2000_0000, c.blackHole, k, 4, limit);

    vttbr := c.ptBase;
    forall x: u32
      ensures Translate(mem.words, vttbr, x) == StaticMap(c, x)
    {
      MapOfTable(mem, pt, c, limit, x);
    }
  }

  // The hardware translation through a finished static table.
  lemma MapOfTable(mem: Memory, pt: PagetableLd, c: Config, limit: nat, x: u32)
    requires Maps(mem, pt, c, Blocks(c), 5, limit)
    ensures Translate(mem.words, c.ptBase, x) == StaticMap(c, x)
  {
    hide WalkPage, Lookup, WellFormed, View, Valid, RamPage, Clean, BasePage;
    RegionOfAddress(x);
    WalkOfTable(mem.words, pt.Val(), limit, x / 0x1000);
    StaticIsBase(c, x / 0x1000);
  }
}
