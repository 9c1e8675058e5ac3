// The static four-guest configuration of vmm/main.c: what the guests reach, and what becomes of
// it over runs.  The pool of vmm/memory_allocator.c begins at guest 0's RAM.
module StaticMachine {
  import opened Options
  import opened BitOps
  import opened PhysMem
  import opened Walker
  import opened TableModel
  import opened PageTable
  import opened GuestTables
  import opened Allocator
  import opened Paging
  import opened Faults
  import opened PagingRuns

  const VMS: nat := 4

  // The arguments main passes for guest i.
  function VmConfig(i: nat): Config
    requires i < VMS
  {
    [Config(0x1000_0000, 0x800_0000, 0x0800_0000, 0x6000_0000, 0x6000_4000, 0x6000_8000, 0x5000_3000, 0x9000_0000),
     Config(0x1800_0000, 0x800_0000, 0x0810_0000, 0x6000_1000, 0x6000_5000, 0x6000_9000, 0x5000_3000, 0x9000_1000),
     Config(0x2000_0000, 0x800_0000, 0x0820_0000, 0x6000_2000, 0x6000_6000, 0x6000_A000, 0x5000_3000, 0x9000_2000),
     Config(0x2800_0000, 0x800_0000, 0x0830_0000, 0x6000_3000, 0x6000_7000, 0x6000_B000, 0x5000_3000, 0x9000_3000)][i]
  }

  const SHARED_PAGE: nat := 0x5_0003
  const POOL_BASE: nat := 0x1000_0000

  // The three private device pages and the black hole of guest i.
  predicate OwnDevice(i: nat, q: nat)
    requires i < VMS
  {
    q == 0x6_0000 + i || q == 0x6_0004 + i || q == 0x6_0008 + i || q == 0x9_0000 + i
  }

  // Page q is of guest i's RAM.
  predicate OwnRam(i: nat, q: nat)
    requires i < VMS
  {
    0x1_0000 + 0x8000 * i <= q < 0x1_0000 + 0x8000 * (i + 1)
  }

  predicate PrivatePage(i: nat, q: nat)
    requires i < VMS
  {
    OwnRam(i, q) || OwnDevice(i, q)
  }

  // ---------------------------------------------------------------------------------------
  // The static map
  // ---------------------------------------------------------------------------------------

  lemma ConfigOf(i: nat)
    requires i < VMS
    ensures var c := VmConfig(i);
      && Blocks(c) == 0x40 && RamPages(c) == 0x8000
      && c.memBasePa == 0x1000_0000 + 0x800_0000 * i && c.memSize == 0x800_0000
      && c.ptBase == 0x0800_0000 + 0x10_0000 * i
      && c.uart / 0x1000 == 0x6_0000 + i && c.timer0 / 0x1000 == 0x6_0004 + i && c.timer2 / 0x1000 == 0x6_0008 + i
      && c.vcpuIf / 0x1000 == SHARED_PAGE && c.blackHole / 0x1000 == 0x9_0000 + i
  {
    assert i == 0 || i == 1 || i == 2 || i == 3;
  }

  // RAM of main's guests in the output of the map.
  lemma FrameOf(i: nat, p: nat)
    requires i < VMS && p < 0x8000
    ensures Frame(VmConfig(i), p) == 0x1_0000 + 0x8000 * i + p
  {
    ConfigOf(i);
    DivUnique(VmConfig(i).memBasePa, 0x20_0000, 0x80 + 0x40 * i, 0);
    DivUnique(0x1_0000 + 0x8000 * i + p, PAGES, 0, 0x1_0000 + 0x8000 * i + p);
  }

  // Guest i translates exactly into its own RAM, its own devices and the shared vCPU interface.
  lemma ReachablePages(i: nat, p: nat)
    requires i < VMS && p < PAGES
    ensures match StaticPage(VmConfig(i), p)
      case None => true
      case Some(q) => PrivatePage(i, q) || q == SHARED_PAGE
  {
    hide Frame;
    ConfigOf(i);
    if p < 0x8000 {
      FrameOf(i, p);
    } else if HIGH_PAGE <= p < HIGH_PAGE + 0x8000 {
      FrameOf(i, p - HIGH_PAGE);
    }
  }

  // The static map of guest i, address by address: 128 MiB of RAM at 0 and at 0x70000000, UART, two
  // timers, vCPU interface and black hole, and nothing else.
  lemma MainMap(i: nat, x: u32)
    requires i < VMS
    ensures StaticMap(VmConfig(i), x) ==
      if x < 0x800_0000 then Some(0x1000_0000 + 0x800_0000 * i + x)
      else if 0x7000_0000 <= x < 0x7800_0000 then Some(0x1000_0000 + 0x800_0000 * i + (x - 0x7000_0000))
      else if 0x1000_9000 <= x < 0x1000_A000 then Some(0x6000_0000 + 0x1000 * i + x % 0x1000)
      else if 0x1001_1000 <= x < 0x1001_2000 then Some(0x6000_4000 + 0x1000 * i + x % 0x1000)
      else if 0x1001_2000 <= x < 0x1001_3000 then Some(0x6000_8000 + 0x1000 * i + x % 0x1000)
      else if 0x1E00_0000 <= x < 0x1E00_1000 then Some(0x5000_3000 + x % 0x1000)
      else if 0x2000_0000 <= x < 0x2000_1000 then Some(0x9000_0000 + 0x1000 * i + x % 0x1000)
      else None
  {
    hide StaticMap, RamPage;
    ConfigOf(i);
    StaticMapIs(i, x);
    if x < 0x800_0000 {
      MainGuest(true, CLEARED_L3, i);
      RamIsMapped(VmConfig(i), CLEARED_L3, x);
    } else if 0x7000_0000 <= x < 0x7800_0000 {
      MainGuest(true, CLEARED_L3, i);
      RamIsMapped(VmConfig(i), CLEARED_L3, x - 0x7000_0000);
    } else {
      NoRamPage(VmConfig(i), x / 0x1000);
    }
  }

  lemma NoRamPage(c: Config, p: nat)
    requires Blocks(c) == 0x40 && 0x8000 <= p && !(0x7_0000 <= p < 0x7_8000)
    ensures RamPage(c, Blocks(c), p) == None
  {
    hide Frame;
  }

  lemma PrivateIsPrivate(i: nat, j: nat, q: nat)
    requires i < VMS && j < VMS && i != j && PrivatePage(i, q)
    ensures !PrivatePage(j, q) && q != SHARED_PAGE
  {
    assert i == 0 || i == 1 || i == 2 || i == 3;
    assert j == 0 || j == 1 || j == 2 || j == 3;
  }

  // The only physical page two static maps share is the vCPU interface.
  lemma OnlyVcpuInterfaceShared(i: nat, j: nat, x: u32, y: u32)
    requires i < VMS && j < VMS && i != j
    ensures match StaticMap(VmConfig(i), x)
      case None => true
      case Some(a) => match StaticMap(VmConfig(j), y)
        case None => true
        case Some(b) => a / 0x1000 == b / 0x1000 ==> a / 0x1000 == SHARED_PAGE
  {
    hide StaticPage, PrivatePage;
    RegionOfAddress(x);
    RegionOfAddress(y);
    ReachablePages(i, x / 0x1000);
    ReachablePages(j, y / 0x1000);
    var a, b := StaticPage(VmConfig(i), x / 0x1000), StaticPage(VmConfig(j), y / 0x1000);
    if a.Some? && b.Some? {
      DivUnique(a.value * 0x1000 + x % 0x1000, 0x1000, a.value, x % 0x1000);
      DivUnique(b.value * 0x1000 + y % 0x1000, 0x1000, b.value, y % 0x1000);
      if PrivatePage(i, a.value) {
        PrivateIsPrivate(i, j, a.value);
      }
    }
  }

  // ---------------------------------------------------------------------------------------
  // Main's set-up
  // ---------------------------------------------------------------------------------------

  // `limit` level-3 tables behind each table base: the 8 that pagetable_init clears, or up to
  // 251 if the memory behind them was zero.  `blocks` is the configuration main uses.
  function MainSetup(blocks: bool, limit: nat): Setup {
    Setup([VmConfig(0), VmConfig(1), VmConfig(2), VmConfig(3)], blocks, limit, POOL_BASE)
  }

  predicate Limits(limit: nat) {
    CLEARED_L3 <= limit <= 251
  }

  lemma MainGuest(blocks: bool, limit: nat, i: nat)
    requires i < VMS && Limits(limit)
    ensures var su := MainSetup(blocks, limit);
      && |su.guests| == VMS && su.guests[i] == VmConfig(i) && Supported(VmConfig(i), limit)
      && 0x0800_0000 + 0x10_0000 * i + 0xD000 <= TableEnd(su, i) <= 0x0810_0000 + 0x10_0000 * i
      && BaseBlocks(su, i) == (if blocks then 0x40 else 0)
  {
    ConfigOf(i);
    assert i == 0 || i == 1 || i == 2 || i == 3;
  }

  // Whatever a base map of main's set-ups reaches is in the static map.
  lemma MainBase(blocks: bool, limit: nat, i: nat, p: nat)
    requires i < VMS && Limits(limit)
    ensures i < |MainSetup(blocks, limit).guests|
    ensures var b := BaseOf(MainSetup(blocks, limit), i, p);
      && (blocks ==> b == StaticPage(VmConfig(i), p))
      && (b.Some? ==> b == StaticPage(VmConfig(i), p))
      && (!blocks ==> b == DeviceAt(VmConfig(i), 5, p))
  {
    hide Frame, StaticPage, DeviceAt;
    MainGuest(blocks, limit, i);
    StaticIsBase(VmConfig(i), p);
    ConfigOf(i);
  }

  lemma BaseAboveTables(i: nat, p: nat)
    requires i < VMS && p < PAGES
    ensures StaticPage(VmConfig(i), p).Some? ==> StaticPage(VmConfig(i), p).value >= 0x1_0000
  {
    hide StaticPage;
    ReachablePages(i, p);
  }

  // Main's parameters are supported: tables, pool and mapped pages are disjoint.
  lemma MainSetupOk(blocks: bool, limit: nat)
    requires Limits(limit)
    ensures SetupOk(MainSetup(blocks, limit))
  {
    hide VmConfig, TableEnd, BaseOf, StaticPage, Supported;
    var su := MainSetup(blocks, limit);
    forall v | 0 <= v < |su.guests|
      ensures GuestOk(su, v)
    {
      MainGuest(blocks, limit, v);
      ConfigOf(v);
      forall x | 0 <= x < PAGES && BaseOf(su, v, x).Some?
        ensures NoTable(su, BaseOf(su, v, x).value)
      {
        MainBase(blocks, limit, v, x);
        BaseAboveTables(v, x);
        forall w | 0 <= w < |su.guests|
          ensures TableEnd(su, w) <= 0x1000_0000
        {
          MainGuest(blocks, limit, w);
        }
      }
    }
    forall v, w | 0 <= v < w < |su.guests|
      ensures Paging.Apart(su.guests[v].ptBase, TableEnd(su, v), su.guests[w].ptBase, TableEnd(su, w))
    {
      MainGuest(blocks, limit, v);
      MainGuest(blocks, limit, w);
      ConfigOf(v);
      ConfigOf(w);
    }
  }

  // ---------------------------------------------------------------------------------------
  // States and runs of the static configuration
  // ---------------------------------------------------------------------------------------

  function Static(limit: nat): Setup {
    MainSetup(true, limit)
  }

  // The address as guest i's hardware sees it.
  function GuestTranslate(m: Words, i: nat, x: u32): Option<nat>
    requires i < VMS
  {
    Translate(m, VmConfig(i).ptBase, x)
  }

  ghost predicate StaticMaps(m: Words) {
    forall i, x: u32 :: 0 <= i < VMS ==> GuestTranslate(m, i, x) == StaticMap(VmConfig(i), x)
  }

  // What guest i's hardware translates after the allocations hist.
  lemma MainTranslates(blocks: bool, limit: nat, w: World, hist: seq<Grant>, n: nat, i: nat, x: u32)
    requires Limits(limit) && Inv(MainSetup(blocks, limit), w, hist, n) && i < n
    ensures i < VMS && |hist| <= PAGE_COUNT
    ensures GuestTranslate(w.m, i, x) == InPage(GuestPage(MainSetup(blocks, limit), i, hist, x / 0x1000), x)
  {
    hide Inv, Translate, GuestPage;
    InvParts(MainSetup(blocks, limit), w, hist, n);
    MainGuest(blocks, limit, i);
    TranslatesHistory(MainSetup(blocks, limit), w, hist, n, i, x);
  }

  // The guests have their static maps exactly as long as nothing has been allocated.
  lemma StaticMapsExactly(limit: nat, w: World, hist: seq<Grant>)
    requires Limits(limit) && Inv(Static(limit), w, hist, VMS)
    ensures StaticMaps(w.m) <==> hist == []
  {
    hide Inv, GuestTranslate, StaticMap, BaseOf, VmConfig, StaticPage;
    var su := Static(limit);
    if hist == [] {
      forall i, x: u32 | 0 <= i < VMS
        ensures GuestTranslate(w.m, i, x) == StaticMap(VmConfig(i), x)
      {
        MainTranslates(true, limit, w, hist, VMS, i, x);
        MainBase(true, limit, i, x / 0x1000);
        StaticMapIs(i, x);
      }
    } else {
      FirstGrantShows(limit, w, hist);
    }
  }

  lemma StaticMapIs(i: nat, x: u32)
    requires i < VMS
    ensures StaticMap(VmConfig(i), x) == InPage(StaticPage(VmConfig(i), x / 0x1000), x)
  {
  }

  lemma FirstGrantShows(limit: nat, w: World, hist: seq<Grant>)
    requires Limits(limit) && Inv(Static(limit), w, hist, VMS) && hist != []
    ensures !StaticMaps(w.m)
  {
    hide Translate, Built, SetupOk, Untouched, After, BaseOf, VmConfig, StaticPage, Touched;
    var su, g := Static(limit), hist[0];
    assert Acceptable(su, g);
    var x := (HIGH_PAGE + g.p) * 0x1000;
    DivUnique(x, 0x1000, HIGH_PAGE + g.p, 0);
    MainTranslates(true, limit, w, hist, VMS, g.vm, x);
    AliasIsFree(su, g);
    MainBase(true, limit, g.vm, HIGH_PAGE + g.p);
    StaticMapIs(g.vm, x);
    GrantNoIs(hist, g.vm, HIGH_PAGE + g.p);
    assert GuestTranslate(w.m, g.vm, x) != StaticMap(VmConfig(g.vm), x);
  }

  // The addresses that make the data-abort handler allocate: the page at 128 MiB and the high
  // window above the alias of RAM.
  predicate MainEscape(x: u32) {
    x / 0x1000 == 0x8000 || 0x7_8000 <= x / 0x1000 < 0x9_0000
  }

  lemma EscapesExactly(limit: nat, i: nat, x: u32)
    requires Limits(limit) && i < VMS
    ensures i < |Static(limit).guests|
    ensures Escapes(Static(limit), i, x) <==> MainEscape(x)
  {
    hide Frame, VmConfig;
    ServedPages(x);
    MainBase(true, limit, i, x / 0x1000);
    ConfigOf(i);
  }

  ghost predicate NoEscape(run: seq<Access>) {
    forall k :: 0 <= k < |run| ==> !MainEscape(run[k].x)
  }

  // Over every run of loads and stores of the guests: a run without escapes is never stopped,
  // and afterwards every guest has its static map exactly if the run had no escape.
  lemma RunKeepsStaticMaps(limit: nat, w: World, run: seq<Access>)
    requires Limits(limit) && Inv(Static(limit), w, [], VMS) && ByFirst(VMS, run)
    ensures match RunAccesses(Static(limit), w, [], VMS, run)
      case None => !NoEscape(run)
      case Some(s) => StaticMaps(s.0.m) <==> NoEscape(run)
  {
    hide Inv, RunAccesses, MainEscape, Escapes, StaticMaps;
    var su := Static(limit);
    forall k | 0 <= k < |run|
      ensures run[k].vm < |su.guests| && (Escapes(su, run[k].vm, run[k].x) <==> MainEscape(run[k].x))
    {
      EscapesExactly(limit, run[k].vm, run[k].x);
    }
    PagingRuns.NoEscapes(su, w, [], VMS, run);
    var r := RunAccesses(su, w, [], VMS, run);
    if r.Some? {
      StaticMapsExactly(limit, r.value.0, r.value.1);
      if !NoEscape(run) {
        var k :| 0 <= k < |run| && MainEscape(run[k].x);
        var g := FaultGrant(run[k].vm, run[k].x);
        assert AskedBy(su, VMS, run[k], g);
        RunGrants(su, w, [], VMS, run, g);
      }
    }
  }

  // The first such access, by guest 1 with the pool as initialised, has the page at 0x10001000
  // mapped, which is guest 0's; a store of guest 1 changes what guest 0 reads at 0x1000.
  lemma EscapeReachesGuest0(limit: nat, w: World, data: byte)
    requires Limits(limit) && Inv(Static(limit), w, [], VMS)
    ensures var a := Access(1, 0x7800_0000, Some(data));
      && |Static(limit).guests| == VMS && Possible(Static(limit), w, [], VMS, a)
      && var m := StepAccess(Static(limit), w, [], VMS, a).0.m;
         && GuestTranslate(m, 1, 0x7800_0000) == Some(0x1000_1000) == GuestTranslate(m, 0, 0x1000)
         && PrivatePage(0, 0x1000_1000 / 0x1000)
         && LoadVia(m, VmConfig(0).ptBase, 0x1000) == Some(data)
  {
    hide Translate, Inv, NewPageSpec, VmConfig, StaticPage, BaseOf, LoadB, StoreB;
    var su, a := Static(limit), Access(1, 0x7800_0000, Some(data));
    MainGuest(true, limit, 0);
    MainGuest(true, limit, 1);
    EscapesExactly(limit, 1, a.x);
    FaultMeansUngranted(su, w, [], VMS, 1, a.x);
    EscapeIsAcceptable(su, 1, a.x);
    var g := FaultGrant(1, a.x);
    FirstGrantFits(su, g);
    NewPageKeepsInv(su, w, [], VMS, g);
    var w1 := NewPageSpec(su, w, [], VMS, g);
    FirstGrantPages(limit, g);
    TranslatesHistory(su, w1, [g], VMS, 1, a.x);
    StepKeepsInv(su, w, [], VMS, a);
    var s := StepAccess(su, w, [], VMS, a);
    assert s.0.m == StoreVia(w1.m, VmConfig(1).ptBase, a.x, data);
    MainTranslates(true, limit, s.0, s.1, VMS, 1, a.x);
    MainTranslates(true, limit, s.0, s.1, VMS, 0, 0x1000);
    LoadStoreB(w1.m, 0x1000_1000, data, 0x1000_1000);
  }

  lemma FirstGrantFits(su: Setup, g: Grant)
    requires Acceptable(su, g) && CLEARED_L3 <= su.limit
    ensures Room(su, [], g)
  {
    assert Init([] + [g]) == [];
    UnionSize(DeviceRegions(5), {g.p / 0x200, 0x380 + g.p / 0x200});
    assert |{g.p / 0x200, 0x380 + g.p / 0x200}| <= 2;
  }

  lemma FirstGrantPages(limit: nat, g: Grant)
    requires Limits(limit) && g == Grant(1, 0x8000)
    ensures |Static(limit).guests| == VMS
    ensures GuestPage(Static(limit), 1, [g], 0x7_8000) == Some(0x1_0001)
    ensures GuestPage(Static(limit), 0, [g], 1) == Some(0x1_0001)
  {
    hide VmConfig, Frame;
    assert Init([g]) == [];
    MainBase(true, limit, 0, 1);
    ConfigOf(0);
    FrameOf(0, 1);
  }

  // ---------------------------------------------------------------------------------------
  // Isolation
  // ---------------------------------------------------------------------------------------

  // Guests i and j reach no common page but the vCPU interface.
  ghost predicate Isolated(m: Words) {
    forall i, j, x: u32, y: u32 :: 0 <= i < VMS && 0 <= j < VMS && i != j ==> SharesNothing(m, i, j, x, y)
  }

  predicate SharesNothing(m: Words, i: nat, j: nat, x: u32, y: u32)
    requires i < VMS && j < VMS
  {
    match (GuestTranslate(m, i, x), GuestTranslate(m, j, y))
    case (Some(a), Some(b)) => a / 0x1000 == b / 0x1000 ==> a / 0x1000 == SHARED_PAGE
    case _ => true
  }

  // The guest whose RAM slot s of the pool is.
  function SlotOwner(s: nat): nat {
    s / 0x8000
  }

  ghost predicate OwnSlots(hist: seq<Grant>) {
    forall k :: 0 < k <= |hist| <= PAGE_COUNT ==> hist[k - 1].vm == SlotOwner(SlotOf(k))
  }

  // In every state that runs of accesses reach the guests are isolated exactly if every
  // allocation happened to take a page of its own guest's RAM.
  lemma IsolatedExactly(limit: nat, w: World, hist: seq<Grant>)
    requires Limits(limit) && Inv(Static(limit), w, hist, VMS) && NoRepeats(hist)
    ensures Isolated(w.m) <==> OwnSlots(hist)
  {
    hide Inv, GuestTranslate, PrivatePage;
    InvParts(Static(limit), w, hist, VMS);
    if OwnSlots(hist) {
      forall i, j, x: u32, y: u32 | 0 <= i < VMS && 0 <= j < VMS && i != j
        ensures SharesNothing(w.m, i, j, x, y)
      {
        ReachesOwn(limit, w, hist, i, x);
        ReachesOwn(limit, w, hist, j, y);
        if GuestTranslate(w.m, i, x).Some? && PrivatePage(i, GuestTranslate(w.m, i, x).value / 0x1000) {
          PrivateIsPrivate(i, j, GuestTranslate(w.m, i, x).value / 0x1000);
        }
      }
    } else {
      var k :| 0 < k <= |hist| <= PAGE_COUNT && hist[k - 1].vm != SlotOwner(SlotOf(k));
      ForeignSlot(limit, w, hist, k);
    }
  }

  lemma ReachesOwn(limit: nat, w: World, hist: seq<Grant>, i: nat, x: u32)
    requires Limits(limit) && Inv(Static(limit), w, hist, VMS) && OwnSlots(hist) && i < VMS
    ensures match GuestTranslate(w.m, i, x)
      case None => true
      case Some(a) => PrivatePage(i, a / 0x1000) || a / 0x1000 == SHARED_PAGE
  {
    hide Inv, GuestTranslate, GuestPage, BaseOf, StaticPage, OwnDevice;
    InvParts(Static(limit), w, hist, VMS);
    MainTranslates(true, limit, w, hist, VMS, i, x);
    RegionOfAddress(x);
    var q := GuestPage(Static(limit), i, hist, x / 0x1000);
    if q.Some? {
      DivUnique(q.value * 0x1000 + x % 0x1000, 0x1000, q.value, x % 0x1000);
      ReachesOwnGrants(Static(limit), hist, i, x / 0x1000);
      MainBase(true, limit, i, x / 0x1000);
      ReachablePages(i, x / 0x1000);
      var k := GrantNo(hist, i, x / 0x1000);
      if k > 0 {
        SlotRam(limit, k);
      }
    }
  }

  // Slot s of the pool is a RAM page of its owner.
  lemma SlotRam(limit: nat, k: nat)
    requires 0 < k <= PAGE_COUNT
    ensures SlotOwner(SlotOf(k)) < VMS && OwnRam(SlotOwner(SlotOf(k)), PoolPage(Static(limit), k))
  {
  }

  // A page of another guest has been allocated: both guests reach it.
  lemma ForeignSlot(limit: nat, w: World, hist: seq<Grant>, k: nat)
    requires Limits(limit) && Inv(Static(limit), w, hist, VMS) && NoRepeats(hist)
    requires 0 < k <= |hist| <= PAGE_COUNT && hist[k - 1].vm != SlotOwner(SlotOf(k))
    ensures !Isolated(w.m)
  {
    hide Translate, Built, SetupOk, Untouched, After, BaseOf, VmConfig, Touched, StaticPage;
    var su, g, s := Static(limit), hist[k - 1], SlotOf(k);
    var j, p := SlotOwner(s), s % 0x8000;
    MainGuest(true, limit, 0);
    assert Acceptable(su, g);
    PairOfGrant(su, hist, g.vm, g.p);
    assert GrantNo(hist, g.vm, g.p) == k;
    var x, y := g.p * 0x1000, p * 0x1000;
    DivUnique(x, 0x1000, g.p, 0);
    DivUnique(y, 0x1000, p, 0);
    MainTranslates(true, limit, w, hist, VMS, g.vm, x);
    MainTranslates(true, limit, w, hist, VMS, j, y);
    RamUngranted(limit, hist, j, p);
    MainBase(true, limit, j, p);
    StaticRam(j, p);
    DivUnique(PoolPage(su, k) * 0x1000, 0x1000, PoolPage(su, k), 0);
    assert !SharesNothing(w.m, g.vm, j, x, y);
  }

  // Blocks stay: RAM is never allocated for.
  lemma RamUngranted(limit: nat, hist: seq<Grant>, j: nat, p: nat)
    requires Limits(limit) && j < VMS && p < 0x8000
    requires forall i :: 0 <= i < |hist| ==> Acceptable(Static(limit), hist[i])
    ensures GrantNo(hist, j, p) == 0
  {
    MainGuest(true, limit, j);
    GrantNoIs(hist, j, p);
  }

  lemma StaticRam(j: nat, p: nat)
    requires j < VMS && p < 0x8000
    ensures StaticPage(VmConfig(j), p) == Some(0x1_0000 + 0x8000 * j + p)
  {
    hide Frame;
    ConfigOf(j);
    FrameOf(j, p);
  }

  // Before a run of the guests its accesses already tell whether it will be stopped, and, if not,
  // whether it leaves the guests isolated: exactly if the j-th of its escapes, counted by first
  // occurrence, is by the guest whose RAM the j-th page of the pool is.
  lemma RunIsolates(limit: nat, w: World, run: seq<Access>)
    requires Limits(limit) && Inv(Static(limit), w, [], VMS) && ByFirst(VMS, run)
    ensures |Static(limit).guests| == VMS
    ensures match RunAccesses(Static(limit), w, [], VMS, run)
      case None => !Legal(Static(limit), FirstEscapes(Static(limit), VMS, run))
      case Some(s) =>
        && Legal(Static(limit), FirstEscapes(Static(limit), VMS, run))
        && (Isolated(s.0.m) <==> OwnSlots(FirstEscapes(Static(limit), VMS, run)))
  {
    hide Inv, RunAccesses, Isolated, OwnSlots, Answers, Legal;
    var su := Static(limit);
    MainGuest(true, limit, 0);
    RunIsAnswers(su, w, [], VMS, run);
    var r := RunAccesses(su, w, [], VMS, run);
    if r.Some? {
      RunGrants(su, w, [], VMS, run, Grant(0, 0));
      IsolatedExactly(limit, r.value.0, r.value.1);
    }
  }

  // A run without escapes leaves the guests isolated.
  lemma NoEscapeIsolates(limit: nat, w: World, run: seq<Access>)
    requires Limits(limit) && Inv(Static(limit), w, [], VMS) && ByFirst(VMS, run) && NoEscape(run)
    ensures RunAccesses(Static(limit), w, [], VMS, run).Some?
    ensures Isolated(RunAccesses(Static(limit), w, [], VMS, run).value.0.m)
  {
    hide Inv, RunAccesses, GuestTranslate, StaticMap;
    RunKeepsStaticMaps(limit, w, run);
    var s := RunAccesses(Static(limit), w, [], VMS, run).value;
    StaticMapsExactly(limit, s.0, s.1);
    IsolatedExactly(limit, s.0, s.1);
  }

  // A byte of guest i's own RAM or devices is not changed by the other guests, whatever they
  // access, as long as nothing escapes.
  lemma {:induction false} PrivateMemory(limit: nat, w: World, run: seq<Access>, i: nat, pa: nat)
    requires Limits(limit) && Inv(Static(limit), w, [], VMS) && ByFirst(VMS, run) && NoEscape(run)
    requires i < VMS && PrivatePage(i, pa / 0x1000)
    requires forall k :: 0 <= k < |run| ==> run[k].vm != i || run[k].store == None
    ensures RunAccesses(Static(limit), w, [], VMS, run).Some?
    ensures LoadB(RunAccesses(Static(limit), w, [], VMS, run).value.0.m, pa) == LoadB(w.m, pa)
  {
    hide Inv, Possible, StepAccess, PrivatePage, LoadB, MainEscape;
    RunKeepsStaticMaps(limit, w, run);
    if run != [] {
      assert ByFirst(VMS, Init(run)) && NoEscape(Init(run));
      PrivateMemory(limit, w, Init(run), i, pa);
      RunKeepsStaticMaps(limit, w, Init(run));
      var s := RunAccesses(Static(limit), w, [], VMS, Init(run)).value;
      StaticMapsExactly(limit, s.0, s.1);
      assert Last(run) == run[|run| - 1];
      AccessMisses(limit, s.0, Last(run), i, pa);
    }
  }

  lemma AccessMisses(limit: nat, w: World, a: Access, i: nat, pa: nat)
    requires Limits(limit) && Inv(Static(limit), w, [], VMS) && StaticMaps(w.m) && a.vm < VMS && !MainEscape(a.x)
    requires i < VMS && PrivatePage(i, pa / 0x1000) && (a.vm != i || a.store == None)
    ensures |Static(limit).guests| == VMS && Possible(Static(limit), w, [], VMS, a)
    ensures LoadB(StepAccess(Static(limit), w, [], VMS, a).0.m, pa) == LoadB(w.m, pa)
  {
    hide Inv, Translate, PrivatePage, LoadB, StoreB, StaticMap, Escapes, MainEscape;
    EscapesExactly(limit, a.vm, a.x);
    MainGuest(true, limit, a.vm);
    FaultMeansUngranted(Static(limit), w, [], VMS, a.vm, a.x);
    assert GuestTranslate(w.m, a.vm, a.x) == StaticMap(VmConfig(a.vm), a.x);
    if a.store.Some? && StaticMap(VmConfig(a.vm), a.x).Some? {
      var to := StaticMap(VmConfig(a.vm), a.x).value;
      StoreMisses(a.vm, i, a.x, to, pa);
      LoadStoreB(w.m, to, a.store.value, pa);
    }
  }

  lemma StoreMisses(j: nat, i: nat, x: u32, to: nat, pa: nat)
    requires i < VMS && j < VMS && i != j
    requires StaticMap(VmConfig(j), x) == Some(to) && PrivatePage(i, pa / 0x1000)
    ensures to != pa
  {
    hide StaticPage, PrivatePage;
    RegionOfAddress(x);
    ReachablePages(j, x / 0x1000);
    var q := StaticPage(VmConfig(j), x / 0x1000).value;
    DivUnique(q * 0x1000 + x % 0x1000, 0x1000, q, x % 0x1000);
    PrivateIsPrivate(i, j, pa / 0x1000);
  }
}
