// The on-demand alternative in vmm/main.c: four guests of 128 MiB on a pool of 512 MiB.
module OnDemandMain {
  import opened Options
  import opened BitOps
  import opened PhysMem
  import opened Streams
  import opened Walker
  import opened TableModel
  import opened PageTable
  import opened GuestTables
  import opened Allocator
  import opened Paging
  import opened PagingRuns
  import opened StaticMachine
  import opened StaticBoot
  import opened OnDemandBoot

  // 251 level-3 tables fit between the table bases of two guests.
  const MAIN_L3: nat := 251

  function OnDemand(): Setup {
    MainSetup(false, MAIN_L3)
  }

  // Every guest has level-3 tables enough for all of its RAM.
  lemma TablesSuffice(v: nat)
    requires v < VMS
    ensures |OnDemand().guests| == VMS && TablesEnough(OnDemand().guests[v]) <= MAIN_L3
  {
    hide VmConfig;
    MainGuest(false, MAIN_L3, v);
    ConfigOf(v);
  }

  // The devices that are mapped from the start are not in the pool.
  lemma MainPoolClear()
    ensures PoolClear(OnDemand())
  {
    hide BaseOf, StaticPage, DeviceAt, VmConfig;
    var su := OnDemand();
    forall v, x | 0 <= v < |su.guests| && 0 <= x < PAGES && BaseOf(su, v, x).Some?
      ensures OutsidePool(su, BaseOf(su, v, x).value)
    {
      MainBase(false, MAIN_L3, v, x);
      DevicesAbovePool(v, x);
    }
  }

  lemma DevicesAbovePool(v: nat, x: nat)
    requires v < VMS && DeviceAt(VmConfig(v), 5, x).Some?
    ensures DeviceAt(VmConfig(v), 5, x).value >= 0x5_0003
  {
    hide VmConfig, Frame, DeviceAt;
    ConfigOf(v);
    StaticIsBase(VmConfig(v), x);
    DevicePages(VmConfig(v), x);
  }

  // ---------------------------------------------------------------------------------------
  // The high alias of a device
  // ---------------------------------------------------------------------------------------

  // The access that loses a device: a load by guest 1 at 0x80009000, the unmapped alias of its
  // UART at 0x10009000, has the first page of the pool mapped over the UART.
  lemma AliasTakesUart(w: World)
    requires Inv(OnDemand(), w, [], VMS)
    ensures var a := Access(1, 0x8000_9000, None);
      && |OnDemand().guests| == VMS
      && Possible(OnDemand(), w, [], VMS, a) && TakesDevice(OnDemand(), [], a)
      && GuestTranslate(w.m, 1, 0x1000_9000) == Some(0x6000_1000)
      && var w' := StepAccess(OnDemand(), w, [], VMS, a).0;
         && RunAccesses(OnDemand(), w, [], VMS, [a]) == Some((w', [Grant(1, 0x1_0009)]))
         && GuestTranslate(w'.m, 1, 0x1000_9000) == Some(0x1000_1000)
         && !KeepsMap(OnDemand(), w, w', VMS)
  {
    hide Translate, Inv, NewPageSpec, VmConfig, BaseOf;
    var su, a, g := OnDemand(), Access(1, 0x8000_9000, None), Grant(1, 0x1_0009);
    MainGuest(false, MAIN_L3, 1);
    UartBase();
    FaultMeansUngranted(su, w, [], VMS, 1, a.x);
    EscapeIsAcceptable(su, 1, a.x);
    FirstGrantFits(su, g);
    StepKeepsInv(su, w, [], VMS, a);
    var s := StepAccess(su, w, [], VMS, a);
    assert s.1 == [g];
    OneAccess(su, w, VMS, a);
    MainTranslates(false, MAIN_L3, w, [], VMS, 1, 0x1000_9000);
    MainTranslates(false, MAIN_L3, s.0, s.1, VMS, 1, 0x1000_9000);
    assert Init([g]) == [];
    assert PoolPage(su, 1) == 0x1_0001;
    assert !KeepsAddress(su, w, s.0, 1, 0x1000_9000);
  }

  lemma UartBase()
    ensures |OnDemand().guests| == VMS
    ensures BaseOf(OnDemand(), 1, 0x1_0009) == Some(0x6_0001) && BaseOf(OnDemand(), 1, 0x8_0009) == None
  {
    hide VmConfig, StaticPage, Frame;
    MainGuest(false, MAIN_L3, 1);
    MainBase(false, MAIN_L3, 1, 0x1_0009);
    MainBase(false, MAIN_L3, 1, 0x8_0009);
    DevicePages(VmConfig(1), 0x1_0009);
    DevicePages(VmConfig(1), 0x8_0009);
    StaticUart(1);
  }

  lemma StaticUart(i: nat)
    requires i < VMS
    ensures StaticPage(VmConfig(i), 0x1_0009) == Some(0x6_0000 + i)
  {
    ConfigOf(i);
  }

  lemma OneAccess(su: Setup, w: World, n: nat, a: Access)
    requires Inv(su, w, [], n) && n <= |su.guests| && Possible(su, w, [], n, a)
    ensures RunAccesses(su, w, [], n, [a]) == Some(StepAccess(su, w, [], n, a))
  {
    hide Inv, Possible, StepAccess;
    assert Init([a]) == [];
  }

  // ---------------------------------------------------------------------------------------
  // How far the pool goes
  // ---------------------------------------------------------------------------------------

  // A RAM page of main's guests, and its number.
  predicate MainPage(g: Grant) {
    g.vm < VMS && g.p < 0x8000
  }

  function Code(g: Grant): nat {
    0x8000 * g.vm + g.p
  }

  ghost function Codes(hist: seq<Grant>): set<nat> {
    if hist == [] then {}
    else Codes(Init(hist)) + if MainPage(Last(hist)) then {Code(Last(hist))} else {}
  }

  lemma {:induction false} CodedMeansGranted(hist: seq<Grant>, g: Grant)
    requires MainPage(g)
    ensures Code(g) in Codes(hist) <==> g in hist
  {
    if hist != [] {
      CodedMeansGranted(Init(hist), g);
      assert g in hist <==> g in Init(hist) || g == Last(hist);
    }
  }

  // Allocations for pages that are no guest's RAM.
  function OutsideRam(hist: seq<Grant>): nat {
    if hist == [] then 0 else OutsideRam(Init(hist)) + if MainPage(Last(hist)) then 0 else 1
  }

  lemma LastIsNew(hist: seq<Grant>)
    requires NoRepeats(hist) && hist != []
    ensures NoRepeats(Init(hist)) && Last(hist) !in Init(hist)
  {
  }

  lemma CodeBound(g: Grant)
    requires MainPage(g)
    ensures Code(g) < PAGE_COUNT
  {
  }

  lemma {:induction false} CodesCount(hist: seq<Grant>)
    requires NoRepeats(hist)
    ensures Codes(hist) <= Below(PAGE_COUNT) && |Codes(hist)| + OutsideRam(hist) == |hist|
  {
    hide Code, MainPage, NoRepeats;
    if hist != [] {
      LastIsNew(hist);
      CodesCount(Init(hist));
      var g := Last(hist);
      if MainPage(g) {
        CodeBound(g);
        CodedMeansGranted(Init(hist), g);
      }
    }
  }

  function PageOf(c: nat): Grant {
    Grant(c / 0x8000, c % 0x8000)
  }

  lemma CodeOf(c: nat)
    requires c < PAGE_COUNT
    ensures MainPage(PageOf(c)) && Code(PageOf(c)) == c
  {
  }

  // The RAM pages of all guests that no allocation has answered.
  ghost function FreeRam(hist: seq<Grant>): set<nat> {
    set c | 0 <= c < PAGE_COUNT && PageOf(c) !in hist
  }

  lemma FreeIsUncoded(hist: seq<Grant>)
    ensures FreeRam(hist) == Below(PAGE_COUNT) - Codes(hist)
  {
    hide Codes, PageOf, Code, MainPage;
    forall c: nat | c < PAGE_COUNT
      ensures c in Codes(hist) <==> PageOf(c) in hist
    {
      CodeOf(c);
      CodedMeansGranted(hist, PageOf(c));
    }
  }

  // The pool has exactly one page for every RAM page of the four guests.  It has a page left
  // exactly if fewer pages went to addresses outside RAM than RAM pages still wait for one; in
  // particular it never fails while guests keep to their RAM.
  lemma PoolIsEnough(hist: seq<Grant>)
    requires NoRepeats(hist)
    ensures |hist| < 0x2_0000 <==> OutsideRam(hist) < |FreeRam(hist)|
  {
    hide Codes, FreeRam, OutsideRam;
    CodesCount(hist);
    FreeIsUncoded(hist);
    assert Below(PAGE_COUNT) == Codes(hist) + FreeRam(hist);
  }

  // ---------------------------------------------------------------------------------------
  // The calls
  // ---------------------------------------------------------------------------------------

  // The first n guests have been set up and loaded.
  ghost predicate UpTo(mem: Memory, pts: seq<PagetableLd>, alloc: MemoryAllocator, hist: seq<Grant>, n: nat,
                       kernel: seq<byte>, initrd: seq<byte>)
    reads mem, pts, alloc.Objs()
  {
    && Ready(OnDemand(), mem, pts, alloc, hist, n) && RamOnly(OnDemand(), hist)
    && |hist| == n * (PagesFor(|kernel|) + PagesFor(|initrd|) + 1)
    && forall v: nat :: v < n ==> GuestImage(OnDemand(), mem.words, hist, v, 0x800_0000, kernel, initrd)
  }

  // Both images fit into 128 MiB.
  predicate Loads(kernelSize: nat, initrdSize: nat) {
    KERNEL_BASE + kernelSize <= INITRD_BASE && INITRD_BASE + initrdSize < 0x800_0000
  }

  // guest_rpb_init_pt and guest_rpb_init_mem for guest v.
  method SetUpGuest(mem: Memory, pts: seq<PagetableLd>, alloc: MemoryAllocator, v: nat, kernel: seq<byte>,
                    initrd: seq<byte>, ghost hist: seq<Grant>)
    returns (vttbr: u64, ghost hist': seq<Grant>)
    requires v < VMS && UpTo(mem, pts, alloc, hist, v, kernel, initrd) && Loads(|kernel|, |initrd|)
    modifies mem, pts, alloc.Objs()
    ensures UpTo(mem, pts, alloc, hist', v + 1, kernel, initrd)
    ensures vttbr == VmConfig(v).ptBase
  {
    hide Ready, RamOnly, GuestImage, VmConfig, Keeps, LoaderFits, PagesFor, LoaderGrants, Loads;
    ghost var su := OnDemand();
    MainGuest(false, MAIN_L3, v);
    ReadySetup(su, mem, pts, alloc, hist, v);
    ghost var m0 := mem.words;
    FitsMain(|kernel|, |initrd|, v);
    vttbr := InitTables(su, mem, pts, alloc, VmConfig(v), v, hist);
    KeptByTables(m0, mem.words, hist, v);
    ghost var m1 := mem.words;
    var ok := InitMem(su, mem, pts, alloc, v, 0x800_0000, kernel, initrd, hist, v + 1);
    hist' := hist + LoaderGrants(v, |kernel|, |initrd|);
    OwnGrants(hist, v, |kernel|, |initrd|);
    KeepsTransitive(su, m0, hist, m1, hist, mem.words, hist');
    forall u: nat | u < v
      ensures GuestImage(su, mem.words, hist', u, 0x800_0000, kernel, initrd)
    {
      KeepsGuestImage(su, m0, hist, mem.words, hist', u, 0x800_0000, kernel, initrd);
    }
  }

  lemma FitsMain(kernelSize: nat, initrdSize: nat, v: nat)
    requires v < VMS && Loads(kernelSize, initrdSize)
    ensures LoaderFits(VmConfig(v), kernelSize, initrdSize)
    ensures (v + 1) * (PagesFor(kernelSize) + PagesFor(initrdSize) + 1) <= PAGE_COUNT
    ensures (v + 1) * (PagesFor(kernelSize) + PagesFor(initrdSize) + 1)
         == v * (PagesFor(kernelSize) + PagesFor(initrdSize) + 1) + (PagesFor(kernelSize) + PagesFor(initrdSize) + 1)
  {
    ConfigOf(v);
    assert PagesFor(kernelSize) <= 0xCF1 && PagesFor(initrdSize) <= 0x7300;
    assert v == 0 || v == 1 || v == 2 || v == 3;
  }

  // The loader asks for pages of its own guest only.
  lemma OwnGrants(hist: seq<Grant>, v: nat, kernelSize: nat, initrdSize: nat)
    ensures |LoaderGrants(v, kernelSize, initrdSize)| == PagesFor(kernelSize) + PagesFor(initrdSize) + 1
    ensures var h := hist + LoaderGrants(v, kernelSize, initrdSize);
      forall i :: |hist| <= i < |h| ==> h[i].vm == v
  {
  }

  // Building a table disturbs nothing that was loaded.
  lemma KeptByTables(m: Words, m': Words, hist: seq<Grant>, u: nat)
    requires u < VMS && |OnDemand().guests| == VMS
    requires SameOutside(m, m', OnDemand().guests[u].ptBase, TableEnd(OnDemand(), u))
    ensures Keeps(OnDemand(), m, hist, m', hist)
  {
    hide LoadB, LoadW, PhysOf, VmConfig, SetupOk, TableEnd;
    var su := OnDemand();
    MainSetupOk(false, MAIN_L3);
    forall v: nat, x: u32 | |hist| <= PAGE_COUNT
      ensures LoadB(m', PhysOf(su, hist, v, x)) == LoadB(m, PhysOf(su, hist, v, x))
      ensures LoadW(m', PhysOf(su, hist, v, x)) == LoadW(m, PhysOf(su, hist, v, x))
    {
      InPool(su, hist, v, x);
      PoolIsNoTable(su, u);
      LoadBFrame(m, m', su.guests[u].ptBase, TableEnd(su, u), PhysOf(su, hist, v, x));
    }
  }

  lemma NothingLoadedYet()
    ensures RamOnly(OnDemand(), [])
  {
    hide TablesEnough, VmConfig;
    forall v | 0 <= v < |OnDemand().guests|
      ensures TablesEnough(OnDemand().guests[v]) <= MAIN_L3
    {
      TablesSuffice(v);
    }
  }

  // After main's on-demand set-up every guest's table is built by its history, every guest
  // finds both images in its RAM, and the pool was large enough.
  method SetUpAll(mem: Memory, pts: seq<PagetableLd>, alloc: MemoryAllocator, kernel: seq<byte>, initrd: seq<byte>)
    returns (vttbrs: seq<u64>, ghost hist: seq<Grant>)
    requires PowerOn(MAIN_L3, mem, pts, alloc) && Loads(|kernel|, |initrd|)
    modifies mem, pts, alloc.Objs()
    ensures UpTo(mem, pts, alloc, hist, VMS, kernel, initrd)
    ensures |vttbrs| == VMS && forall i :: 0 <= i < VMS ==> vttbrs[i] == VmConfig(i).ptBase
  {
    hide PowerOn, VmConfig, Ready, RamOnly, GuestImage, Loads;
    PowerOnIsReady(false, MAIN_L3, mem, pts, alloc);
    NothingLoadedYet();
    hist, vttbrs := [], [];
    for v := 0 to VMS
      invariant UpTo(mem, pts, alloc, hist, v, kernel, initrd)
      invariant |vttbrs| == v && forall i :: 0 <= i < v ==> vttbrs[i] == VmConfig(i).ptBase
    {
      var vttbr;
      vttbr, hist := SetUpGuest(mem, pts, alloc, v, kernel, initrd, hist);
      vttbrs := vttbrs + [vttbr];
    }
  }
}
