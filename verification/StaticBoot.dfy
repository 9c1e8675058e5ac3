// Set-up of the static configuration: guest_rpb_init_mem_static and the calls in main.
module StaticBoot {
  import opened Options
  import opened BitOps
  import opened PhysMem
  import opened Streams
  import opened Walker
  import opened PageTable
  import opened GuestTables
  import opened Allocator
  import opened Paging
  import opened PagingRuns
  import opened StaticMachine
  import opened GuestBoot

  const KERNEL_BASE: nat := 0x1_0000
  const INITRD_BASE: nat := 0xD0_0000
  const ATAG_BASE: nat := 0x100

  function Bootloader(): seq<u32> {
    [0xe3a00000, 0xe3a01069, 0xe3811c07, 0xe59f2000, 0xe59ff000, 0x70000100, 0x70010000]
  }

  function Atags(memSize: u32, initrdSize: u32): seq<u32> {
    [5, 0x54410001, 1, 0x1000, 0,
     4, 0x54410002, memSize, 0x70000000,
     4, 0x54420005, 0x70d00000, initrdSize,
     0, 0]
  }

  // The two streams fit the guest's RAM and do not overlap.
  predicate Fits(memSize: nat, kernel: seq<byte>, initrd: seq<byte>) {
    KERNEL_BASE + |kernel| <= INITRD_BASE && INITRD_BASE + |initrd| <= memSize
  }

  function LoadedImage(m: Words, base: nat, memSize: u32, kernel: seq<byte>, initrd: seq<byte>): Words
    requires Fits(memSize, kernel, initrd)
  {
    var m1 := StoreBytes(m, base + KERNEL_BASE, kernel);
    var m2 := StoreBytes(m1, base + INITRD_BASE, initrd);
    var m3 := StoreWords(m2, base, Bootloader());
    StoreWords(m3, base + ATAG_BASE, Atags(memSize, |initrd|))
  }

  // What the guest finds in its RAM at physical address base.
  ghost predicate HoldsImage(m: Words, base: nat, memSize: u32, kernel: seq<byte>, initrd: seq<byte>) {
    && Fits(memSize, kernel, initrd)
    && (forall j :: 0 <= j < |kernel| ==> LoadB(m, base + KERNEL_BASE + j) == kernel[j])
    && (forall j :: 0 <= j < |initrd| ==> LoadB(m, base + INITRD_BASE + j) == initrd[j])
    && (forall k :: 0 <= k < 7 ==> LoadW(m, base + 4 * k) == Bootloader()[k])
    && (forall k :: 0 <= k < 15 ==> LoadW(m, base + ATAG_BASE + 4 * k) == Atags(memSize, |initrd|)[k])
  }

  lemma LoadedImageHolds(m: Words, base: nat, memSize: u32, kernel: seq<byte>, initrd: seq<byte>)
    requires base % 4 == 0 && Fits(memSize, kernel, initrd)
    ensures HoldsImage(LoadedImage(m, base, memSize, kernel, initrd), base, memSize, kernel, initrd)
  {
    hide LoadB, LoadW, StoreBytes, StoreWords, Bootloader, Atags;
    var m1 := StoreBytes(m, base + KERNEL_BASE, kernel);
    var m2 := StoreBytes(m1, base + INITRD_BASE, initrd);
    var m3 := StoreWords(m2, base, Bootloader());
    var m4 := StoreWords(m3, base + ATAG_BASE, Atags(memSize, |initrd|));
    TableLengths(memSize, |initrd|);
    Quarter(base);
    StoreWordsFrame(m2, base, Bootloader(), base, base + 0x100);
    StoreWordsFrame(m3, base + ATAG_BASE, Atags(memSize, |initrd|), base + 0x100, base + 0x1000);
    forall j | 0 <= j < |kernel|
      ensures LoadB(m4, base + KERNEL_BASE + j) == kernel[j]
    {
      var x := base + KERNEL_BASE + j;
      StoreBytesLoads(m, base + KERNEL_BASE, kernel, x);
      StoreBytesLoads(m1, base + INITRD_BASE, initrd, x);
      LoadBFrame(m2, m3, base, base + 0x100, x);
      LoadBFrame(m3, m4, base + 0x100, base + 0x1000, x);
    }
    forall j | 0 <= j < |initrd|
      ensures LoadB(m4, base + INITRD_BASE + j) == initrd[j]
    {
      var x := base + INITRD_BASE + j;
      StoreBytesLoads(m1, base + INITRD_BASE, initrd, x);
      LoadBFrame(m2, m3, base, base + 0x100, x);
      LoadBFrame(m3, m4, base + 0x100, base + 0x1000, x);
    }
    forall k | 0 <= k < 7
      ensures LoadW(m4, base + 4 * k) == Bootloader()[k]
    {
      StoreWordsLoads(m2, base, Bootloader(), k);
    }
    forall k | 0 <= k < 15
      ensures LoadW(m4, base + ATAG_BASE + 4 * k) == Atags(memSize, |initrd|)[k]
    {
      StoreWordsLoads(m3, base + ATAG_BASE, Atags(memSize, |initrd|), k);
    }
  }

  lemma TableLengths(memSize: u32, initrdSize: u32)
    ensures |Bootloader()| == 7 && |Atags(memSize, initrdSize)| == 15
  {
  }

  lemma Quarter(a: nat)
    requires a % 4 == 0
    ensures (a + 0x100) % 4 == 0 && (a + 0x1000) % 4 == 0 && (a + 0x800_0000) % 4 == 0
  {
    DivUnique(a + 0x100, 4, a / 4 + 0x40, 0);
    DivUnique(a + 0x1000, 4, a / 4 + 0x400, 0);
    DivUnique(a + 0x800_0000, 4, a / 4 + 0x200_0000, 0);
  }

  lemma PageIsFour(a: nat)
    requires a % 0x1000 == 0
    ensures a % 4 == 0
  {
    DivUnique(a, 4, 0x400 * (a / 0x1000), 0);
  }

  lemma LoadedImageFrame(m: Words, base: nat, memSize: u32, kernel: seq<byte>, initrd: seq<byte>)
    requires base % 0x1000 == 0 && Fits(memSize, kernel, initrd) && memSize == 0x800_0000
    ensures SameOutside(m, LoadedImage(m, base, memSize, kernel, initrd), base, base + 0x800_0000)
  {
    hide LoadW, StoreBytes, StoreWords, Bootloader, Atags;
    var lo, hi := base, base + 0x800_0000;
    PageIsFour(base);
    Quarter(base);
    TableLengths(memSize, |initrd|);
    var m1 := StoreBytes(m, base + KERNEL_BASE, kernel);
    var m2 := StoreBytes(m1, base + INITRD_BASE, initrd);
    var m3 := StoreWords(m2, base, Bootloader());
    StoreBytesFrame(m, base + KERNEL_BASE, kernel, lo, hi);
    StoreBytesFrame(m1, base + INITRD_BASE, initrd, lo, hi);
    StoreWordsFrame(m2, base, Bootloader(), lo, hi);
    StoreWordsFrame(m3, base + ATAG_BASE, Atags(memSize, |initrd|), lo, hi);
  }

  lemma ImageFrame(m: Words, m': Words, base: nat, memSize: u32, kernel: seq<byte>, initrd: seq<byte>)
    requires HoldsImage(m, base, memSize, kernel, initrd) && memSize == 0x800_0000 && base % 0x1000 == 0
    requires SameOn(m, m', base, base + 0x800_0000)
    ensures HoldsImage(m', base, memSize, kernel, initrd)
  {
    hide Bootloader, Atags;
    PageIsFour(base);
    Quarter(base);
    TableLengths(memSize, |initrd|);
    forall x | base <= x < base + 0x800_0000
      ensures LoadB(m', x) == LoadB(m, x)
    {
      WordOfRange(x, base, base + 0x800_0000);
    }
  }

  // The two tables of the loaders are the boot page.
  lemma TablesAreBootPage(m: Words, base: nat, memSize: u32, initrdSize: u32)
    requires HasWords(m, base, Bootloader()) && HasWords(m, base + ATAG_BASE, Atags(memSize, initrdSize))
    ensures BootPage(m, base, memSize, initrdSize)
  {
    hide LoadW, HasWords;
    var t := Atags(memSize, initrdSize);
    PartInMemory(m, base + 0x100, t, 0, 5);
    PartInMemory(m, base + 0x100, t, 5, 9);
    PartInMemory(m, base + 0x100, t, 9, 13);
    PartInMemory(m, base + 0x100, t, 13, 15);
    assert t[0..5] == [5, 0x54410001, 1, 0x1000, 0] && t[5..9] == [4, 0x54410002, memSize, 0x7000_0000];
    assert t[9..13] == [4, 0x54420005, 0x70D0_0000, initrdSize] && t[13..15] == [0, 0];
  }

  // guest_rpb_init_mem_static
  method InitMemStatic(mem: Memory, memBasePa: u32, memSize: u32, kernel: seq<byte>, initrd: seq<byte>)
    requires memBasePa % 4 == 0 && memBasePa + memSize <= LIMIT_32 && Fits(memSize, kernel, initrd)
    modifies mem
    ensures mem.words == LoadedImage(old(mem.words), memBasePa, memSize, kernel, initrd)
    ensures BootPage(mem.words, memBasePa, memSize, |initrd|)
    ensures forall j :: 0 <= j < |kernel| ==> LoadB(mem.words, memBasePa + 0x1_0000 + j) == kernel[j]
    ensures forall j :: 0 <= j < |initrd| ==> LoadB(mem.words, memBasePa + 0xD0_0000 + j) == initrd[j]
  {
    hide StoreBytes, StoreWords, LoadB, LoadW, BootPage;
    ghost var m := mem.words;
    CopyBytes(mem, memBasePa + KERNEL_BASE, kernel);
    CopyBytes(mem, memBasePa + INITRD_BASE, initrd);
    var atag := Atags(memSize, 0);
    atag := atag[12 := |initrd|];
    assert atag == Atags(memSize, |initrd|);
    CopyWords(mem, memBasePa, Bootloader());
    CopyWords(mem, memBasePa + ATAG_BASE, atag);
    LoadedImageHolds(m, memBasePa, memSize, kernel, initrd);
    TablesAreBootPage(mem.words, memBasePa, memSize, |initrd|);
  }

  // Through its table guest i reads the images at their load addresses, low and high.
  lemma GuestReadsImage(limit: nat, w: World, n: nat, i: nat, kernel: seq<byte>, initrd: seq<byte>, j: nat)
    requires Limits(limit) && Inv(Static(limit), w, [], n) && i < n <= VMS
    requires HoldsImage(w.m, VmConfig(i).memBasePa, 0x800_0000, kernel, initrd)
    ensures j < |kernel| ==> ReadsBoth(w.m, VmConfig(i).ptBase, KERNEL_BASE + j, kernel[j])
    ensures j < |initrd| ==> ReadsBoth(w.m, VmConfig(i).ptBase, INITRD_BASE + j, initrd[j])
  {
    hide LoadB, Inv, Translate, VmConfig, Bootloader, Atags;
    if j < |kernel| {
      BothAddresses(limit, w, n, i, KERNEL_BASE + j);
    }
    if j < |initrd| {
      BothAddresses(limit, w, n, i, INITRD_BASE + j);
    }
  }

  lemma BothAddresses(limit: nat, w: World, n: nat, i: nat, x: nat)
    requires Limits(limit) && Inv(Static(limit), w, [], n) && i < n <= VMS && x < 0x800_0000
    ensures GuestTranslate(w.m, i, x) == Some(VmConfig(i).memBasePa + x)
    ensures GuestTranslate(w.m, i, 0x7000_0000 + x) == Some(VmConfig(i).memBasePa + x)
  {
    hide Inv, GuestTranslate, StaticMap, BaseOf, StaticPage, VmConfig;
    ConfigOf(i);
    MainGuest(true, limit, i);
    MainTranslates(true, limit, w, [], n, i, x);
    MainTranslates(true, limit, w, [], n, i, 0x7000_0000 + x);
    MainBase(true, limit, i, x / 0x1000);
    MainBase(true, limit, i, (0x7000_0000 + x) / 0x1000);
    StaticMapIs(i, x);
    StaticMapIs(i, 0x7000_0000 + x);
    RamIsMapped(VmConfig(i), limit, x);
  }

  // What guest i reads in the high window.
  lemma HighWindow(m: Words, i: nat, x: nat)
    requires i < VMS && StaticMaps(m) && x < 0x800_0000
    ensures LoadVia(m, VmConfig(i).ptBase, 0x7000_0000 + x) == Some(LoadB(m, VmConfig(i).memBasePa + x))
    ensures WordVia(m, VmConfig(i).ptBase, 0x7000_0000 + x) == Some(LoadW(m, VmConfig(i).memBasePa + x))
  {
    hide Translate, StaticMap, VmConfig, LoadB, LoadW;
    ConfigOf(i);
    MainGuest(true, CLEARED_L3, i);
    RamIsMapped(VmConfig(i), CLEARED_L3, x);
    assert GuestTranslate(m, i, 0x7000_0000 + x) == StaticMap(VmConfig(i), 0x7000_0000 + x);
  }

  // With its static map and its image in place a guest finds at 0x70000000 what it boots from.
  lemma StaticBoots(m: Words, i: nat, kernel: seq<byte>, initrd: seq<byte>)
    requires i < VMS && StaticMaps(m) && Holds(m, i, kernel, initrd)
    ensures Boots(m, VmConfig(i).ptBase, 0x7000_0000, 0x800_0000, kernel, initrd)
  {
    hide StaticMaps, VmConfig, LoadB, LoadW, LoadVia, WordVia, Boots, Bootloader, Atags;
    TableLengths(0x800_0000, |initrd|);
    var b, v, t := VmConfig(i).memBasePa, VmConfig(i).ptBase, Atags(0x800_0000, |initrd|);
    forall j | 0 <= j < |kernel|
      ensures ReadsByte(m, v, 0x7001_0000 + j, kernel[j])
    {
      HighWindow(m, i, KERNEL_BASE + j);
      assert LoadB(m, b + KERNEL_BASE + j) == kernel[j];
    }
    forall j | 0 <= j < |initrd|
      ensures ReadsByte(m, v, 0x70D0_0000 + j, initrd[j])
    {
      HighWindow(m, i, INITRD_BASE + j);
      assert LoadB(m, b + INITRD_BASE + j) == initrd[j];
    }
    forall k | 0 <= k < 7
      ensures ReadsWord(m, v, 0x7000_0000 + 4 * k, Bootloader()[k])
    {
      HighWindow(m, i, 4 * k);
      assert LoadW(m, b + 4 * k) == Bootloader()[k];
    }
    forall k | 0 <= k < 15
      ensures ReadsWord(m, v, 0x7000_0100 + 4 * k, t[k])
    {
      HighWindow(m, i, ATAG_BASE + 4 * k);
      assert LoadW(m, b + ATAG_BASE + 4 * k) == t[k];
    }
    BootsFromTables(m, v, 0x800_0000, kernel, initrd);
  }

  // The two tables of the loaders are what a guest boots from.
  lemma BootsFromTables(m: Words, v: u64, memSize: u32, kernel: seq<byte>, initrd: seq<byte>)
    requires |initrd| < 0x1_0000_0000
    requires ReadsBytes(m, v, 0x7001_0000, kernel) && ReadsBytes(m, v, 0x70D0_0000, initrd)
    requires ReadsWords(m, v, 0x7000_0000, Bootloader())
    requires ReadsWords(m, v, 0x7000_0100, Atags(memSize, |initrd|))
    ensures Boots(m, v, 0x7000_0000, memSize, kernel, initrd)
  {
    hide WordVia, ReadsBytes, ReadsWords;
    var b, t := Bootloader(), Atags(memSize, |initrd|);
    PartOfWords(m, v, 0x7000_0000, b, 0, 5);
    PartOfWords(m, v, 0x7000_0000, b, 5, 7);
    PartOfWords(m, v, 0x7000_0100, t, 0, 5);
    PartOfWords(m, v, 0x7000_0100, t, 5, 9);
    PartOfWords(m, v, 0x7000_0100, t, 9, 13);
    PartOfWords(m, v, 0x7000_0100, t, 13, 15);
    assert b[0..5] == [0xe3a00000, 0xe3a01069, 0xe3811c07, 0xe59f2000, 0xe59ff000];
    assert b[5..7] == [0x7000_0100, 0x7001_0000];
    assert t[0..5] == [5, 0x54410001, 1, 0x1000, 0] && t[5..9] == [4, 0x54410002, memSize, 0x7000_0000];
    assert t[9..13] == [4, 0x54420005, 0x70D0_0000, |initrd|] && t[13..15] == [0, 0];
  }

  // ---------------------------------------------------------------------------------------
  // vmm/main.c
  // ---------------------------------------------------------------------------------------

  // The first n guests are set up.
  ghost predicate Booted(limit: nat, mem: Memory, pts: seq<PagetableLd>, alloc: MemoryAllocator, n: nat,
                         kernel: seq<byte>, initrd: seq<byte>)
    requires n <= VMS
    reads mem, pts, alloc.Objs()
  {
    && Ready(Static(limit), mem, pts, alloc, [], n)
    && forall i :: 0 <= i < n ==> Holds(mem.words, i, kernel, initrd)
  }

  ghost predicate Holds(m: Words, i: nat, kernel: seq<byte>, initrd: seq<byte>)
    requires i < VMS
  {
    HoldsImage(m, VmConfig(i).memBasePa, 0x800_0000, kernel, initrd)
  }

  // Loading guest i's RAM keeps every table and pool entry.
  lemma LoadKeepsInv(limit: nat, w: World, m: Words, i: nat, n: nat)
    requires Limits(limit) && i < VMS && Inv(Static(limit), w, [], n)
    requires SameOutside(w.m, m, VmConfig(i).memBasePa, VmConfig(i).memBasePa + 0x800_0000)
    ensures Inv(Static(limit), w.(m := m), [], n)
  {
    hide Inv, VmConfig, LoadW, TableEnd;
    ConfigOf(i);
    forall v | 0 <= v < |Static(limit).guests|
      ensures SameOn(w.m, m, Static(limit).guests[v].ptBase, TableEnd(Static(limit), v))
    {
      MainGuest(true, limit, v);
    }
    MemoryKeepsInv(Static(limit), w, m, [], n);
  }

  // Setting up guest i touches no other guest's RAM.
  lemma HoldsKept(limit: nat, m: Words, m1: Words, m2: Words, i: nat, j: nat, kernel: seq<byte>, initrd: seq<byte>)
    requires Limits(limit) && i < VMS && j < VMS && i != j && Holds(m, j, kernel, initrd)
    requires SameOutside(m, m1, VmConfig(i).ptBase, TableTop(VmConfig(i), limit))
    requires SameOutside(m1, m2, VmConfig(i).memBasePa, VmConfig(i).memBasePa + 0x800_0000)
    ensures Holds(m2, j, kernel, initrd)
  {
    hide LoadW, HoldsImage, VmConfig, TableTop;
    ConfigOf(i);
    ConfigOf(j);
    MainGuest(true, limit, i);
    assert i == 0 || i == 1 || i == 2 || i == 3;
    assert j == 0 || j == 1 || j == 2 || j == 3;
    ImageFrame(m, m2, VmConfig(j).memBasePa, 0x800_0000, kernel, initrd);
  }

  // guest_rpb_init_pt_static and guest_rpb_init_mem_static for guest i.
  method BootGuest(ghost limit: nat, mem: Memory, pts: seq<PagetableLd>, ghost alloc: MemoryAllocator, i: nat,
                   kernel: seq<byte>, initrd: seq<byte>)
    returns (vttbr: u64)
    requires Limits(limit) && i < VMS && Fits(0x800_0000, kernel, initrd)
    requires Booted(limit, mem, pts, alloc, i, kernel, initrd)
    modifies mem, pts
    ensures Booted(limit, mem, pts, alloc, i + 1, kernel, initrd)
    ensures vttbr == VmConfig(i).ptBase
  {
    hide WellFormed, BuildTab, View, StaticMap, Translate, Inv, Holds, VmConfig, LoadedImage, Supported,
      MemoryAllocator.View, TableTop, HoldsImage, Fits;
    var c := VmConfig(i);
    ghost var su := Static(limit);
    ConfigOf(i);
    MainGuest(true, limit, i);
    ghost var w := WorldOf(mem, pts, alloc);
    TablesAhead(limit, w, i);
    vttbr := InitPtStatic(mem, pts[i], c, limit);
    ghost var w1 := WorldOf(mem, pts, alloc);
    SetUpKeepsInv(su, w, [], i, w1);
    InitMemStatic(mem, c.memBasePa, c.memSize, kernel, initrd);
    LoadedImageHolds(w1.m, c.memBasePa, c.memSize, kernel, initrd);
    LoadedImageFrame(w1.m, c.memBasePa, c.memSize, kernel, initrd);
    LoadKeepsInv(limit, w1, mem.words, i, i + 1);
    HoldsNow(mem.words, i, kernel, initrd);
    forall j | 0 <= j < i
      ensures Holds(mem.words, j, kernel, initrd)
    {
      HoldsKept(limit, w.m, w1.m, mem.words, i, j, kernel, initrd);
    }
  }

  lemma HoldsNow(m: Words, i: nat, kernel: seq<byte>, initrd: seq<byte>)
    requires i < VMS && HoldsImage(m, VmConfig(i).memBasePa, VmConfig(i).memSize, kernel, initrd)
    ensures Holds(m, i, kernel, initrd)
  {
    ConfigOf(i);
  }

  lemma TablesAhead(limit: nat, w: World, i: nat)
    requires Limits(limit) && i < VMS && Inv(Static(limit), w, [], i)
    ensures ZeroOn(w.m, VmConfig(i).ptBase + 0xD000, TableTop(VmConfig(i), limit)) && |w.ts| == VMS
  {
    MainGuest(true, limit, i);
    assert Untouched(Static(limit), i, w.m);
  }

  // meteor_devices_init has initialised the pool; if more than the cleared level-3 tables are to
  // be used, memory behind them is zero.
  ghost predicate PowerOn(limit: nat, mem: Memory, pts: seq<PagetableLd>, alloc: MemoryAllocator)
    reads mem, pts, alloc.Objs()
  {
    && Distinct(mem, pts, alloc) && alloc.Valid() && |pts| == VMS
    && alloc.memBase == POOL_BASE && alloc.View() == EmptyPool()
    && (forall i :: 0 <= i < VMS ==>
          ZeroOn(mem.words, VmConfig(i).ptBase + 0xD000, TableTop(VmConfig(i), limit)))
  }

  lemma PowerOnIsReady(blocks: bool, limit: nat, mem: Memory, pts: seq<PagetableLd>, alloc: MemoryAllocator)
    requires Limits(limit) && PowerOn(limit, mem, pts, alloc)
    ensures Ready(MainSetup(blocks, limit), mem, pts, alloc, [], 0)
  {
    hide VmConfig, LoadW, OwnedSlots, SetupOk, TableTop, MemoryAllocator.View, Inv;
    MainSetupOk(blocks, limit);
    var su := MainSetup(blocks, limit);
    forall v | 0 <= v < |su.guests|
      ensures Untouched(su, v, mem.words)
    {
      MainGuest(blocks, limit, v);
    }
    NothingSetUp(su, mem.words, Vals(pts));
  }

  // With the eight tables that pagetable_init clears nothing is asked of memory.
  lemma ClearedIsEnough(mem: Memory, pts: seq<PagetableLd>, alloc: MemoryAllocator)
    requires Distinct(mem, pts, alloc) && alloc.Valid() && |pts| == VMS
    requires alloc.memBase == POOL_BASE && alloc.View() == EmptyPool()
    ensures PowerOn(CLEARED_L3, mem, pts, alloc)
  {
    hide MemoryAllocator.View, VmConfig;
    forall i | 0 <= i < VMS
      ensures TableTop(VmConfig(i), CLEARED_L3) == VmConfig(i).ptBase + 0xD000
    {
    }
  }

  lemma NothingBooted(limit: nat, mem: Memory, pts: seq<PagetableLd>, alloc: MemoryAllocator, kernel: seq<byte>,
                      initrd: seq<byte>)
    requires Limits(limit) && PowerOn(limit, mem, pts, alloc)
    ensures Booted(limit, mem, pts, alloc, 0, kernel, initrd)
  {
    hide PowerOn, Ready;
    PowerOnIsReady(true, limit, mem, pts, alloc);
  }

  lemma AllBooted(limit: nat, mem: Memory, pts: seq<PagetableLd>, alloc: MemoryAllocator, kernel: seq<byte>,
                  initrd: seq<byte>)
    requires Limits(limit) && Booted(limit, mem, pts, alloc, VMS, kernel, initrd)
    ensures StaticMaps(mem.words)
  {
    hide Inv, Holds, StaticMaps;
    StaticMapsExactly(limit, WorldOf(mem, pts, alloc), []);
  }

  // The memory set-up of main: after it every guest translates as configured, finds both images
  // in its RAM, and nothing has been taken from the pool.
  method BootAll(ghost limit: nat, mem: Memory, pts: seq<PagetableLd>, ghost alloc: MemoryAllocator,
                 kernel: seq<byte>, initrd: seq<byte>)
    returns (vttbrs: seq<u64>)
    requires Limits(limit) && PowerOn(limit, mem, pts, alloc) && Fits(0x800_0000, kernel, initrd)
    modifies mem, pts
    ensures Booted(limit, mem, pts, alloc, VMS, kernel, initrd)
    ensures StaticMaps(mem.words)
    ensures |vttbrs| == VMS && forall i :: 0 <= i < VMS ==> vttbrs[i] == VmConfig(i).ptBase
  {
    hide PowerOn, Booted, VmConfig, Fits, StaticMaps;
    NothingBooted(limit, mem, pts, alloc, kernel, initrd);
    var v0 := BootGuest(limit, mem, pts, alloc, 0, kernel, initrd);
    var v1 := BootGuest(limit, mem, pts, alloc, 1, kernel, initrd);
    var v2 := BootGuest(limit, mem, pts, alloc, 2, kernel, initrd);
    var v3 := BootGuest(limit, mem, pts, alloc, 3, kernel, initrd);
    vttbrs := [v0, v1, v2, v3];
    AllBooted(limit, mem, pts, alloc, kernel, initrd);
  }
}
