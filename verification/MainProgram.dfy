// vmm/main.c on the objects: the guests, their tables and interrupts, the first restore; and the
// machine that runs from there, step by step the one of module WholeSystem.
module MainProgram {
  import opened Options
  import opened BitOps
  import opened PhysMem
  import opened Streams
  import opened Walker
  import opened PageTable
  import opened Allocator
  import opened Paging
  import opened Faults
  import opened PagingRuns
  import opened StaticMachine
  import opened StaticBoot
  import opened OnDemandBoot
  import opened OnDemandMain
  import opened GuestBoot
  import opened VirtualDistributor
  import opened Machine
  import opened Hypervisor
  import opened WholeSystem
  import Runs
  import Cp15

  // ---------------------------------------------------------------------------------------
  // The abstract machine of the objects
  // ---------------------------------------------------------------------------------------

  ghost function WholeOf(sys: System, core: Core, hist: seq<Grant>): Whole
    requires sys.Owned() && sys.alloc.Shaped()
    reads sys, sys.hw.Objs(), sys.parts, sys.pts, sys.alloc.Objs(), core, core.r
  {
    Whole(sys.Running(core), sys.Mapped(), hist)
  }

  // The objects are in a good state.
  ghost predicate Operating(su: Setup, sys: System, core: Core, hist: seq<Grant>)
    reads sys, sys.hw.Objs(), sys.parts, sys.pts, sys.alloc.Objs(), core, core.r
  {
    sys.Valid() && sys.CoreApart(core) && sys.Paged(su, hist) && Good(su, WholeOf(sys, core, hist))
  }

  // ---------------------------------------------------------------------------------------
  // The start
  // ---------------------------------------------------------------------------------------

  // The backups guest_rpb_init and the table set-up leave, and main's interrupt map.
  function InitialVm(i: nat): Vm
    requires i < VMS
  {
    Vm(true, true, WfiOut, false, InitialContext().(vttbr := VmConfig(i).ptBase), Pids(GuestVirqs(i)))
  }

  ghost predicate InitialGuest(g: Guest, i: nat)
    requires i < VMS
    reads g.Objs()
  {
    g.Valid() && g.id == i && g.View() == InitialVm(i)
  }

  lemma InitialVmIs(i: nat)
    requires i < VMS
    ensures var g := InitialVm(i);
      && StartsAs(g.bk, i) && StartsWith(g.(dirty := i == 0), i) && !g.dirty
  {
    hide VmConfig, Baddr;
    ConfigOf(i);
    DivUnique(VmConfig(i).ptBase, 0x100_0000_0000, 0, VmConfig(i).ptBase);
  }

  // The first restore and the cleared registers lead to that state, whatever was in the hardware.
  lemma EntryState(s: Sys, r: seq<u32>, lr: u32)
    requires ShapedCtx(s.live) && |s.vm| == VMS && s.cur == 0 && !s.idle && !s.halted
    requires forall i :: 0 <= i < VMS ==> s.vm[i] == InitialVm(i)
    requires |r| == 13 && forall k :: 0 <= k < 13 ==> r[k] == 0
    ensures var t := Machine.Restore(s, 0, false); AtEntry(t.(live := t.live.(r := r, lrUsr := lr)))
  {
    hide InitialVm, WithVmid, StartsAs, StartsWith;
    var t := Machine.Restore(s, 0, false);
    var u := t.(live := t.live.(r := r, lrUsr := lr));
    InitialVmIs(0);
    Runs.TagTwice(s.vm[0].bk.vttbr, 0);
    Runs.VttbrFields(u.live.vttbr);
    SameStart(s.vm[0].bk, u.live, 0);
    forall i | 0 <= i < 4
      ensures StartsAs(EntryContext(u, i), i) && StartsWith(u.vm[i], i)
    {
      InitialVmIs(i);
      assert u.vm[i] == s.vm[i].(dirty := i == 0);
    }
  }

  // VMID and lr are left open.
  lemma SameStart(c: Ctx, d: Ctx, i: nat)
    requires StartsAs(c, i) && |d.r| == 13 && (forall k :: 0 <= k < 13 ==> d.r[k] == 0)
    requires d.banked == c.banked && d.cp == c.cp && d.ctlr == c.ctlr && d.list == c.list
    requires Baddr(d.vttbr) == Baddr(c.vttbr)
    ensures StartsAs(d, i)
  {
  }

  // Guest i is entered with its context, and behind its entry point finds what it boots from.
  ghost predicate Enters(s: Sys, m: Words, i: nat, kernel: seq<byte>, initrd: seq<byte>)
    requires i < |s.vm|
  {
    var c := EntryContext(s, i);
    StartsAs(c, i) && Boots(m, c.vttbr, c.banked.elrHyp, 0x800_0000, kernel, initrd)
  }

  // In supervisor mode, as SPSR asks, five instructions lead from there into the kernel, with 0 in
  // r0, the machine number in r1, the tags in r2 and 0 in r3 to r12.
  lemma EnteredGuestRunsKernel(s: Sys, m: Words, i: nat, kernel: seq<byte>, initrd: seq<byte>)
    requires i < |s.vm| && Enters(s, m, i, kernel, initrd)
    ensures var c := EntryContext(s, i);
      && |c.r| == 13
      && Executes(m, c.vttbr, Cpu(c.r + [c.banked.spSvc, c.banked.lrSvc], c.banked.elrHyp), 5)
           == Some(Cpu([0, 0x769, 0x7000_0100, 0, 0, 0, 0, 0, 0, 0, 0, 0, 0, 0, 0], 0x7001_0000))
      && (kernel != [] ==> LoadVia(m, c.vttbr, 0x7001_0000) == Some(kernel[0]))
  {
    hide Boots, Executes, LoadVia;
    var c := EntryContext(s, i);
    var cpu := Cpu(c.r + [c.banked.spSvc, c.banked.lrSvc], c.banked.elrHyp);
    EntersKernel(m, c.vttbr, cpu, 0x800_0000, kernel, initrd);
    assert cpu.r[0 := 0][1 := 0x769][2 := 0x7000_0100] == [0, 0x769, 0x7000_0100, 0, 0, 0, 0, 0, 0, 0, 0, 0, 0, 0, 0];
  }

  // The VMID does not matter to what the guest reads.
  lemma BootsVia(m: Words, v: u64, b: u64, entry: u32, memSize: u32, kernel: seq<byte>, initrd: seq<byte>)
    requires Baddr(v) == b && Boots(m, b, entry, memSize, kernel, initrd)
    ensures Boots(m, v, entry, memSize, kernel, initrd)
  {
    hide Baddr, Translate, LoadB, LoadW;
    forall x: u32
      ensures LoadVia(m, v, x) == LoadVia(m, b, x) && WordVia(m, v, x) == WordVia(m, b, x)
    {
      WalkUsesBaddr(m, v, b, x);
    }
  }

  // What main does for guest i.
  method BootVm(ghost limit: nat, mem: Memory, pts: seq<PagetableLd>, ghost alloc: MemoryAllocator, i: nat,
                sysDist: GicDist, kernel: seq<byte>, initrd: seq<byte>)
    returns (g: Guest)
    requires Limits(limit) && i < VMS && Fits(0x800_0000, kernel, initrd)
    requires Booted(limit, mem, pts, alloc, i, kernel, initrd)
    modifies mem, pts
    ensures Booted(limit, mem, pts, alloc, i + 1, kernel, initrd)
    ensures InitialGuest(g, i) && fresh(g.Objs())
  {
    hide Booted, VmConfig, Fits, ZERO_BANKED, ZERO_CP, MainVirqs;
    assert allocated(alloc.Objs());
    g := new Guest(i, sysDist);
    var vttbr := BootGuest(limit, mem, pts, alloc, i, kernel, initrd);
    g.vttbr := vttbr;
    InitVirq(g.dist, 40 + i, 44 + i, 48 + i);
  }

  // The first restored state: guest 0 runs, with VTTBR at its tables.
  lemma StartIsGood(su: Setup, s: Sys, w: World, hist: seq<Grant>)
    requires ShapedCtx(s.live) && |s.vm| == VMS == |su.guests|
    requires s.cur == 0 && !s.idle && !s.halted
    requires forall i :: 0 <= i < VMS ==> s.vm[i] == InitialVm(i) && su.guests[i] == VmConfig(i)
    requires Paging.Inv(su, w, hist, VMS) && FrameClear(su)
    ensures Good(su, Whole(Machine.Restore(s, 0, false), w, hist))
  {
    hide Paging.Inv, Baddr, Vmid, VmConfig, WithVmid, GuestVirqs, FrameClear, Machine.Restore;
    forall i | 0 <= i < VMS
      ensures Baddr(s.vm[i].bk.vttbr) == Bases(su)[i] && |Pids(GuestVirqs(i))| == VIRQS
    {
      BaseField(i);
      VirqCount(i);
    }
    Runs.FirstRestore(s, Bases(su));
  }

  lemma BaseField(i: nat)
    requires i < VMS
    ensures Baddr(VmConfig(i).ptBase) == VmConfig(i).ptBase
  {
    ConfigOf(i);
    DivUnique(VmConfig(i).ptBase, 0x100_0000_0000, 0, VmConfig(i).ptBase);
  }

  lemma VirqCount(i: nat)
    ensures |Pids(GuestVirqs(i))| == VIRQS
  {
  }

  // Main's tables lie above the hyp stack.
  lemma MainFrameClear(blocks: bool, limit: nat)
    requires Limits(limit)
    ensures FrameClear(MainSetup(blocks, limit))
  {
    hide VmConfig, TableEnd;
    forall v | 0 <= v < |MainSetup(blocks, limit).guests|
      ensures MainSetup(blocks, limit).guests[v].ptBase >= 0x800_0000
    {
      MainGuest(blocks, limit, v);
      ConfigOf(v);
    }
  }

  // The running guest's registers may be anything.
  lemma AnyRegisters(su: Setup, u: Whole, r: seq<u32>, lr: u32)
    requires Good(su, u) && !u.s.idle && |r| == REGS
    ensures Good(su, u.(s := u.s.(live := u.s.live.(r := r, lrUsr := lr))))
  {
    hide Paging.Inv, Runs.Inv, FrameClear;
    Runs.InvParts(u.s, Bases(su));
    Runs.MoveLive(u.s, u.s.live.(r := r, lrUsr := lr), Bases(su));
  }

  // The tables, the pool and the core are other objects than the hardware.
  ghost predicate Separate(hw: Hardware, pts: seq<PagetableLd>, alloc: MemoryAllocator, core: Core) {
    && (forall i :: 0 <= i < |pts| ==> pts[i] as object !in hw.Objs() && pts[i] as object !in {core, core.r})
    && alloc.Objs() !! hw.Objs() && {core, core.r} !! hw.Objs() && {core, core.r} !! alloc.Objs()
    && core.r.Length == REGS
  }

  ghost predicate CoreIsNoPart(guests: seq<Guest>, core: Core) {
    forall i :: 0 <= i < |guests| ==> core !in guests[i].Objs() && core.r !in guests[i].Objs()
  }

  lemma CoreOutside(guests: seq<Guest>, core: Core)
    requires CoreIsNoPart(guests, core)
    ensures {core, core.r} !! GuestObjs(guests)
  {
    hide Guest.Objs;
  }

  lemma PagedAtStart(su: Setup, sys: System, hist: seq<Grant>)
    requires sys.TablesOwned() && FrameClear(su) && |sys.vm| == |su.guests|
    requires Ready(su, sys.hw.mem, sys.pts, sys.alloc, hist, |sys.vm|)
    ensures sys.Paged(su, hist)
  {
  }

  lemma NotIdle(s: Sys)
    requires 0 < |s.vm| && !s.idle
    ensures !Machine.Restore(s, 0, false).idle
    ensures s.cur == 0 ==> Machine.Restore(s, 0, false).cur == 0
  {
  }

  // guest_restore for guest 0, without a frame, and scheduler_leave_idle.
  method FirstRestore(ghost su: Setup, sys: System, ghost hist: seq<Grant>)
    requires sys.Valid() && sys.Paged(su, hist) && |sys.vm| == VMS == |su.guests|
    requires sys.vmId == 0 && !sys.idle && !sys.halted
    requires forall i :: 0 <= i < VMS ==> sys.vm[i].View() == InitialVm(i) && su.guests[i] == VmConfig(i)
    modifies sys, sys.parts, sys.hw.Objs()
    ensures sys.Valid() && sys.Paged(su, hist) && sys.vmId == 0 && !sys.idle
    ensures Good(su, Whole(sys.State(), sys.Mapped(), hist))
    ensures sys.State() == Machine.Restore(old(sys.State()), 0, false)
    ensures OnlyFrame(old(sys.hw.mem.words), sys.hw.mem.words)
  {
    hide SystemParts, Guest.View, Hardware.Framed, Paging.Inv, Machine.Restore, InitialVm, OnlyFrame, VmConfig, Good,
      MemoryAllocator.View, System.Paged, FrameClear;
    sys.PagedParts(su, hist);
    ghost var s, w := sys.State(), sys.Mapped();
    sys.StateIsShaped();
    sys.Restore(0, 0);
    sys.StillPaged(su, hist, w);
    sys.PagedParts(su, hist);
    StartIsGood(su, s, sys.Mapped(), hist);
    NotIdle(s);
    sys.idle := false;
  }

  // r0 to r12 are cleared before the first guest is entered.
  method ClearRegisters(core: Core)
    requires core.r.Length == REGS
    modifies core.r
    ensures forall i :: 0 <= i < REGS ==> core.r[i] == 0
  {
    for i := 0 to REGS
      invariant forall k :: 0 <= k < i ==> core.r[k] == 0
    {
      core.r[i] := 0;
    }
  }

  // The end of main: the first restore, without a trap frame, and cleared registers.
  method Launch(ghost su: Setup, hw: Hardware, guests: seq<Guest>, pts: seq<PagetableLd>, alloc: MemoryAllocator,
                core: Core, ghost hist: seq<Grant>)
    returns (sys: System)
    requires |guests| == VMS == |su.guests| && SystemParts(hw, guests) && TablesApart(hw, guests, pts, alloc)
    requires forall i :: 0 <= i < VMS ==> InitialGuest(guests[i], i) && su.guests[i] == VmConfig(i)
    requires Ready(su, hw.mem, pts, alloc, hist, VMS) && FrameClear(su)
    requires Separate(hw, pts, alloc, core) && CoreIsNoPart(guests, core)
    modifies hw.Objs(), GuestObjs(guests), core.r
    ensures Operating(su, sys, core, hist) && sys.hw == hw && sys.pts == pts && sys.alloc == alloc
    ensures !sys.idle && sys.vmId == 0 && OnlyFrame(old(hw.mem.words), hw.mem.words)
    ensures AtEntry(sys.Running(core))
  {
    hide SystemParts, Guest.View, Guest.Valid, Hardware.Framed, Paging.Inv, InitialVm, TablesApart, GuestObjs,
      OnlyFrame, VmConfig, Good, MemoryAllocator.View, System.Paged, FrameClear, System.Views, System.Mapped,
      AtEntry, Machine.Restore;
    CoreOutside(guests, core);
    sys := new System(hw, guests, pts, alloc);
    PagedAtStart(su, sys, hist);
    forall i | 0 <= i < VMS
      ensures sys.vm[i].View() == InitialVm(i)
    {
      assert InitialGuest(guests[i], i);
    }
    ghost var s := sys.State();
    sys.StateIsShaped();
    FirstRestore(su, sys, hist);
    ghost var u := Whole(sys.State(), sys.Mapped(), hist);
    ClearRegisters(core);
    AnyRegisters(su, u, core.r[..], core.lrUsr);
    EntryState(s, core.r[..], core.lrUsr);
  }

  // A guest's objects are none of the others.
  ghost predicate GuestApart(g: Guest, hw: Hardware, alloc: MemoryAllocator, core: Core) {
    g.Objs() !! hw.Objs() && g.Objs() !! alloc.Objs() && core !in g.Objs() && core.r !in g.Objs()
  }

  ghost predicate AllApart(guests: seq<Guest>, hw: Hardware, alloc: MemoryAllocator, core: Core) {
    && (forall i :: 0 <= i < |guests| ==> GuestApart(guests[i], hw, alloc, core))
    && (forall i, j :: 0 <= i < j < |guests| ==> guests[i].Objs() !! guests[j].Objs())
  }

  lemma PartsAreApart(guests: seq<Guest>, hw: Hardware, pts: seq<PagetableLd>, alloc: MemoryAllocator, core: Core)
    requires |guests| == VMS && AllApart(guests, hw, alloc, core) && hw.Valid() && Separate(hw, pts, alloc, core)
    requires forall i :: 0 <= i < VMS ==> guests[i].Valid() && guests[i].id == i
    ensures SystemParts(hw, guests) && TablesApart(hw, guests, pts, alloc) && CoreIsNoPart(guests, core)
  {
    hide Guest.Objs, Hardware.Objs, MemoryAllocator.Objs, Guest.Valid;
  }

  lemma FreshIsApart(g: Guest, hw: Hardware, alloc: MemoryAllocator, core: Core)
    requires g.Objs() !! hw.Objs() && g.Objs() !! alloc.Objs() && core !in g.Objs() && core.r !in g.Objs()
    ensures GuestApart(g, hw, alloc, core)
  {
  }

  lemma BootedIsReady(limit: nat, mem: Memory, pts: seq<PagetableLd>, alloc: MemoryAllocator, kernel: seq<byte>,
                      initrd: seq<byte>)
    requires Limits(limit) && Booted(limit, mem, pts, alloc, VMS, kernel, initrd)
    ensures Ready(Static(limit), mem, pts, alloc, [], VMS) && |Static(limit).guests| == VMS
    ensures forall i :: 0 <= i < VMS ==> Static(limit).guests[i] == VmConfig(i) && Holds(mem.words, i, kernel, initrd)
  {
    hide Ready, Holds;
    forall i | 0 <= i < VMS
      ensures Static(limit).guests[i] == VmConfig(i)
    {
      MainGuest(true, limit, i);
    }
  }

  lemma OperatingIsGood(su: Setup, sys: System, core: Core, hist: seq<Grant>)
    requires Operating(su, sys, core, hist)
    ensures sys.Valid() && sys.Owned() && sys.alloc.Shaped() && sys.CoreApart(core) && sys.Paged(su, hist)
    ensures WholeOf(sys, core, hist) == Whole(sys.Running(core), sys.Mapped(), hist)
    ensures Good(su, WholeOf(sys, core, hist)) && |su.guests| == |sys.vm|
    ensures sys.Running(core).cur == sys.vmId && sys.Running(core).idle == sys.idle
    ensures sys.Mapped().m == sys.hw.mem.words && Shaped(sys.Running(core))
  {
    hide Paging.Inv, Guest.View, Hardware.Framed, SystemParts;
  }

  lemma GoodIsOperating(su: Setup, sys: System, core: Core, hist: seq<Grant>)
    requires sys.Valid() && sys.CoreApart(core) && sys.Paged(su, hist)
    requires Good(su, Whole(sys.Running(core), sys.Mapped(), hist))
    ensures Operating(su, sys, core, hist)
    ensures WholeOf(sys, core, hist) == Whole(sys.Running(core), sys.Mapped(), hist)
    ensures sys.Mapped().m == sys.hw.mem.words
  {
    hide Good, System.Paged, System.Valid, System.CoreApart;
  }

  // The first restore writes at most the frame: maps and images are as they were loaded.
  lemma AfterLaunch(limit: nat, u: Whole, m: Words, kernel: seq<byte>, initrd: seq<byte>)
    requires Limits(limit) && Good(Static(limit), u) && u.hist == [] && OnlyFrame(m, u.w.m)
    requires forall i :: 0 <= i < VMS ==> Holds(m, i, kernel, initrd)
    ensures StaticMaps(u.w.m) && forall i :: 0 <= i < VMS ==> Holds(u.w.m, i, kernel, initrd)
  {
    hide Good, StaticMaps, HoldsImage, VmConfig;
    GoodTables(limit, u);
    StaticMapsExactly(limit, u.w, []);
    forall i | 0 <= i < VMS
      ensures Holds(u.w.m, i, kernel, initrd)
    {
      ConfigOf(i);
      assert Holds(m, i, kernel, initrd);
      RamAboveFrame(m, u.w.m, VmConfig(i).memBasePa);
      ImageFrame(m, u.w.m, VmConfig(i).memBasePa, 0x800_0000, kernel, initrd);
    }
  }

  lemma RamAboveFrame(m: Words, m': Words, base: nat)
    requires OnlyFrame(m, m') && base >= STACK_HYP_BASE
    ensures SameOn(m, m', base, base + 0x800_0000)
  {
  }

  // The guests of main, each with its tables, its images and its interrupts.
  method CreateGuests(ghost limit: nat, ghost hw: Hardware, mem: Memory, pts: seq<PagetableLd>,
                      ghost alloc: MemoryAllocator, ghost core: Core, sysDist: GicDist, kernel: seq<byte>,
                      initrd: seq<byte>)
    returns (guests: seq<Guest>)
    requires Limits(limit) && PowerOn(limit, mem, pts, alloc) && Fits(0x800_0000, kernel, initrd)
    modifies mem, pts
    ensures |guests| == VMS && Booted(limit, mem, pts, alloc, VMS, kernel, initrd)
    ensures forall j :: 0 <= j < VMS ==> InitialGuest(guests[j], j) && fresh(guests[j].Objs())
    ensures AllApart(guests, hw, alloc, core)
  {
    hide Booted, PowerOn, Fits, Guest.View, InitialVm, Guest.Valid, GuestApart, InitialGuest;
    assert allocated(hw.Objs()) && allocated(alloc.Objs()) && allocated(core.r);
    NothingBooted(limit, mem, pts, alloc, kernel, initrd);
    guests := [];
    for i := 0 to VMS
      invariant |guests| == i && Booted(limit, mem, pts, alloc, i, kernel, initrd)
      invariant forall j :: 0 <= j < i ==> InitialGuest(guests[j], j) && fresh(guests[j].Objs())
      invariant AllApart(guests, hw, alloc, core)
    {
      assert forall j :: 0 <= j < i ==> allocated(guests[j].Objs());
      var g := BootVm(limit, mem, pts, alloc, i, sysDist, kernel, initrd);
      FreshIsApart(g, hw, alloc, core);
      guests := guests + [g];
    }
  }

  // Main, with the static tables: every guest is set up on its own object, then the first is
  // entered.  Afterwards the machine is in a good state in which every guest has its static map
  // and finds both images in its RAM.
  method StartStatic(ghost limit: nat, hw: Hardware, pts: seq<PagetableLd>, alloc: MemoryAllocator, core: Core,
                     sysDist: GicDist, kernel: seq<byte>, initrd: seq<byte>)
    returns (sys: System)
    requires Limits(limit) && PowerOn(limit, hw.mem, pts, alloc) && Fits(0x800_0000, kernel, initrd)
    requires hw.Valid() && Separate(hw, pts, alloc, core)
    modifies hw.Objs(), pts, core.r
    ensures Operating(Static(limit), sys, core, []) && StaticMaps(hw.mem.words)
    ensures sys.hw == hw && AtEntry(sys.Running(core))
    ensures forall i :: 0 <= i < VMS ==> Holds(hw.mem.words, i, kernel, initrd)
    ensures forall i :: 0 <= i < VMS ==> Enters(sys.Running(core), hw.mem.words, i, kernel, initrd)
  {
    hide Booted, PowerOn, Fits, Guest.View, InitialVm, Guest.Valid, AllApart, Separate, SystemParts, TablesApart,
      CoreIsNoPart, Operating, StaticMaps, Holds, OnlyFrame, Good, WholeOf, Ready, FrameClear, VmConfig, System.Valid,
      System.Paged, System.Mapped, System.Running, AtEntry, Enters;
    var guests := CreateGuests(limit, hw, hw.mem, pts, alloc, core, sysDist, kernel, initrd);
    PartsAreApart(guests, hw, pts, alloc, core);
    BootedIsReady(limit, hw.mem, pts, alloc, kernel, initrd);
    MainFrameClear(true, limit);
    ghost var m := hw.mem.words;
    sys := Launch(Static(limit), hw, guests, pts, alloc, core, []);
    OperatingIsGood(Static(limit), sys, core, []);
    AfterLaunch(limit, WholeOf(sys, core, []), m, kernel, initrd);
    StaticEnters(sys.Running(core), hw.mem.words, kernel, initrd);
  }

  lemma StaticEnters(s: Sys, m: Words, kernel: seq<byte>, initrd: seq<byte>)
    requires AtEntry(s) && StaticMaps(m) && forall i :: 0 <= i < VMS ==> Holds(m, i, kernel, initrd)
    ensures forall i :: 0 <= i < VMS ==> Enters(s, m, i, kernel, initrd)
  {
    hide StaticMaps, Holds, VmConfig, Boots, StartsWith;
    forall i | 0 <= i < VMS
      ensures Enters(s, m, i, kernel, initrd)
    {
      StaticBoots(m, i, kernel, initrd);
      ConfigOf(i);
      GuestEnters(s, m, i, kernel, initrd);
    }
  }

  lemma GuestEnters(s: Sys, m: Words, i: nat, kernel: seq<byte>, initrd: seq<byte>)
    requires i < |s.vm| && StartsAs(EntryContext(s, i), i)
    requires Boots(m, 0x0800_0000 + 0x10_0000 * i, 0x7000_0000, 0x800_0000, kernel, initrd)
    ensures Enters(s, m, i, kernel, initrd)
  {
    hide Boots;
    BootsVia(m, EntryContext(s, i).vttbr, 0x0800_0000 + 0x10_0000 * i, 0x7000_0000, 0x800_0000, kernel, initrd);
  }

  // Main from reset: pool, tables and core are created, meteor_devices_init gives the pool its
  // base, and only the level-3 tables that pagetable_init clears are used.  Memory and hardware
  // may hold anything.
  method StartFromReset(hw: Hardware, sysDist: GicDist, kernel: seq<byte>, initrd: seq<byte>)
    returns (sys: System, core: Core)
    requires hw.Valid() && Fits(0x800_0000, kernel, initrd)
    modifies hw.Objs()
    ensures Operating(Static(CLEARED_L3), sys, core, []) && StaticMaps(hw.mem.words)
    ensures sys.hw == hw && AtEntry(sys.Running(core))
    ensures forall i :: 0 <= i < VMS ==> Holds(hw.mem.words, i, kernel, initrd)
    ensures forall i :: 0 <= i < VMS ==> Enters(sys.Running(core), hw.mem.words, i, kernel, initrd)
  {
    hide Fits, Operating, StaticMaps, Holds, PowerOn, AtEntry, Enters, MemoryAllocator.View, Hardware.Valid,
      System.Running, System.Valid, Hardware.Framed;
    assert allocated(hw.Objs());
    var alloc := new MemoryAllocator();
    alloc.Init(POOL_BASE);
    var pt0 := new PagetableLd();
    var pt1 := new PagetableLd();
    var pt2 := new PagetableLd();
    var pt3 := new PagetableLd();
    var pts := [pt0, pt1, pt2, pt3];
    core := new Core();
    ClearedIsEnough(hw.mem, pts, alloc);
    sys := StartStatic(CLEARED_L3, hw, pts, alloc, core, sysDist, kernel, initrd);
  }

  // What main's alternative does for guest i.
  method BootVmOnDemand(mem: Memory, pts: seq<PagetableLd>, alloc: MemoryAllocator, i: nat, sysDist: GicDist,
                        kernel: seq<byte>, initrd: seq<byte>, ghost hist: seq<Grant>)
    returns (g: Guest, ghost hist': seq<Grant>)
    requires i < VMS && UpTo(mem, pts, alloc, hist, i, kernel, initrd) && Loads(|kernel|, |initrd|)
    modifies mem, pts, alloc.Objs()
    ensures UpTo(mem, pts, alloc, hist', i + 1, kernel, initrd)
    ensures InitialGuest(g, i) && fresh(g.Objs())
  {
    hide UpTo, VmConfig, Loads, ZERO_BANKED, ZERO_CP, MainVirqs;
    assert allocated(alloc.Objs());
    g := new Guest(i, sysDist);
    var vttbr;
    vttbr, hist' := SetUpGuest(mem, pts, alloc, i, kernel, initrd, hist);
    g.vttbr := vttbr;
    InitVirq(g.dist, 40 + i, 44 + i, 48 + i);
  }

  // The guests of main's alternative.
  method CreateOnDemand(ghost hw: Hardware, mem: Memory, pts: seq<PagetableLd>, alloc: MemoryAllocator,
                        ghost core: Core, sysDist: GicDist, kernel: seq<byte>, initrd: seq<byte>)
    returns (guests: seq<Guest>, ghost hist: seq<Grant>)
    requires PowerOn(MAIN_L3, mem, pts, alloc) && Loads(|kernel|, |initrd|)
    modifies mem, pts, alloc.Objs()
    ensures |guests| == VMS && UpTo(mem, pts, alloc, hist, VMS, kernel, initrd)
    ensures forall j :: 0 <= j < VMS ==> InitialGuest(guests[j], j) && fresh(guests[j].Objs())
    ensures AllApart(guests, hw, alloc, core)
  {
    hide UpTo, PowerOn, Loads, Guest.View, InitialVm, Guest.Valid, GuestApart, InitialGuest;
    assert allocated(hw.Objs()) && allocated(alloc.Objs()) && allocated(core.r);
    NothingUp(mem, pts, alloc, kernel, initrd);
    guests, hist := [], [];
    for i := 0 to VMS
      invariant |guests| == i && UpTo(mem, pts, alloc, hist, i, kernel, initrd)
      invariant forall j :: 0 <= j < i ==> InitialGuest(guests[j], j) && fresh(guests[j].Objs())
      invariant AllApart(guests, hw, alloc, core)
    {
      assert forall j :: 0 <= j < i ==> allocated(guests[j].Objs());
      var g;
      g, hist := BootVmOnDemand(mem, pts, alloc, i, sysDist, kernel, initrd, hist);
      FreshIsApart(g, hw, alloc, core);
      guests := guests + [g];
    }
  }

  lemma NothingUp(mem: Memory, pts: seq<PagetableLd>, alloc: MemoryAllocator, kernel: seq<byte>, initrd: seq<byte>)
    requires PowerOn(MAIN_L3, mem, pts, alloc)
    ensures UpTo(mem, pts, alloc, [], 0, kernel, initrd)
  {
    hide PowerOn, Ready, RamOnly;
    PowerOnIsReady(false, MAIN_L3, mem, pts, alloc);
    NothingLoadedYet();
  }

  lemma UpToIsReady(mem: Memory, pts: seq<PagetableLd>, alloc: MemoryAllocator, hist: seq<Grant>, kernel: seq<byte>,
                    initrd: seq<byte>)
    requires UpTo(mem, pts, alloc, hist, VMS, kernel, initrd)
    ensures Ready(OnDemand(), mem, pts, alloc, hist, VMS) && |OnDemand().guests| == VMS
    ensures forall i :: 0 <= i < VMS ==> OnDemand().guests[i] == VmConfig(i)
    ensures |hist| == VMS * (PagesFor(|kernel|) + PagesFor(|initrd|) + 1)
    ensures forall v: nat :: v < VMS ==> GuestImage(OnDemand(), mem.words, hist, v, 0x800_0000, kernel, initrd)
  {
    hide Ready, RamOnly, GuestImage;
    forall i | 0 <= i < VMS
      ensures OnDemand().guests[i] == VmConfig(i)
    {
      MainGuest(false, MAIN_L3, i);
    }
  }

  // Main with the tables that are filled on demand: a good state in which every guest finds both
  // images, bootloader and atags in its RAM.
  method StartOnDemand(hw: Hardware, pts: seq<PagetableLd>, alloc: MemoryAllocator, core: Core,
                       sysDist: GicDist, kernel: seq<byte>, initrd: seq<byte>)
    returns (sys: System, ghost hist: seq<Grant>)
    requires PowerOn(MAIN_L3, hw.mem, pts, alloc) && Loads(|kernel|, |initrd|)
    requires hw.Valid() && Separate(hw, pts, alloc, core)
    modifies hw.Objs(), pts, alloc.Objs(), core.r
    ensures Operating(OnDemand(), sys, core, hist) && sys.hw == hw && AtEntry(sys.Running(core))
    ensures forall i :: 0 <= i < VMS ==> Enters(sys.Running(core), hw.mem.words, i, kernel, initrd)
    ensures forall v: nat :: v < VMS ==> GuestImage(OnDemand(), hw.mem.words, hist, v, 0x800_0000, kernel, initrd)
    ensures |hist| == VMS * (PagesFor(|kernel|) + PagesFor(|initrd|) + 1)
  {
    hide UpTo, PowerOn, Loads, Guest.View, InitialVm, Guest.Valid, AllApart, Separate, SystemParts, TablesApart,
      CoreIsNoPart, Operating, OnlyFrame, VmConfig, PagesFor, GuestImage, AtEntry, Enters, Good, System.Valid,
      System.Paged, System.Mapped, System.Running;
    var guests;
    guests, hist := CreateOnDemand(hw, hw.mem, pts, alloc, core, sysDist, kernel, initrd);
    PartsAreApart(guests, hw, pts, alloc, core);
    UpToIsReady(hw.mem, pts, alloc, hist, kernel, initrd);
    MainFrameClear(false, MAIN_L3);
    ghost var m := hw.mem.words;
    sys := Launch(OnDemand(), hw, guests, pts, alloc, core, hist);
    ImagesAfterLaunch(m, hw.mem.words, hist, kernel, initrd);
    OperatingIsGood(OnDemand(), sys, core, hist);
    OnDemandEnters(WholeOf(sys, core, hist), kernel, initrd);
  }

  lemma OnDemandEnters(u: Whole, kernel: seq<byte>, initrd: seq<byte>)
    requires Good(OnDemand(), u) && AtEntry(u.s)
    requires forall v: nat :: v < VMS ==> GuestImage(OnDemand(), u.w.m, u.hist, v, 0x800_0000, kernel, initrd)
    ensures forall i :: 0 <= i < VMS ==> Enters(u.s, u.w.m, i, kernel, initrd)
  {
    hide Boots, StartsWith, GuestImage, VmConfig, Paging.Inv, Runs.Inv, FrameClear;
    forall i | 0 <= i < VMS
      ensures Enters(u.s, u.w.m, i, kernel, initrd)
    {
      MainGuest(false, MAIN_L3, i);
      OnDemandBoots(OnDemand(), u.w, u.hist, VMS, i, 0x800_0000, kernel, initrd);
      ConfigOf(i);
      GuestEnters(u.s, u.w.m, i, kernel, initrd);
    }
  }

  // The trap frame is no page of the pool.
  lemma KeptByFrame(m: Words, m': Words, hist: seq<Grant>)
    requires OnlyFrame(m, m')
    ensures Keeps(OnDemand(), m, hist, m', hist)
  {
    hide LoadB, LoadW, PhysOf, VmConfig, SetupOk;
    var su := OnDemand();
    MainSetupOk(false, MAIN_L3);
    forall v: nat, x: u32 | |hist| <= PAGE_COUNT
      ensures LoadB(m', PhysOf(su, hist, v, x)) == LoadB(m, PhysOf(su, hist, v, x))
      ensures LoadW(m', PhysOf(su, hist, v, x)) == LoadW(m, PhysOf(su, hist, v, x))
    {
      InPool(su, hist, v, x);
      LoadBFrame(m, m', STACK_HYP_BASE - FRAME, STACK_HYP_BASE, PhysOf(su, hist, v, x));
    }
  }

  lemma ImagesAfterLaunch(m: Words, m': Words, hist: seq<Grant>, kernel: seq<byte>, initrd: seq<byte>)
    requires OnlyFrame(m, m')
    requires forall v: nat :: v < VMS ==> GuestImage(OnDemand(), m, hist, v, 0x800_0000, kernel, initrd)
    ensures forall v: nat :: v < VMS ==> GuestImage(OnDemand(), m', hist, v, 0x800_0000, kernel, initrd)
  {
    hide Keeps, GuestImage, OnlyFrame;
    KeptByFrame(m, m', hist);
    forall v: nat | v < VMS
      ensures GuestImage(OnDemand(), m', hist, v, 0x800_0000, kernel, initrd)
    {
      KeepsGuestImage(OnDemand(), m, hist, m', hist, v, 0x800_0000, kernel, initrd);
    }
  }

  // ---------------------------------------------------------------------------------------
  // The handlers on the objects are the events of the whole machine
  // ---------------------------------------------------------------------------------------

  // The hardware traps only on addresses that do not translate, and level-3 tables suffice.
  ghost predicate Unmapped(su: Setup, u: Whole, y: Syndrome) {
    y.Allocates() ==>
      && Translate(u.w.m, u.s.live.vttbr, y.Address()) == None
      && Room(su, u.hist, FaultGrant(u.s.cur, y.Address()))
  }

  // What the hardware reports of a trap.  HSR holds the exception class in bits 31:26; for a data
  // abort, class 0x24, of an access to x at virtual address va, HPFAR holds the page of x in bits
  // 31:4 and HDFAR is va.  An access to an address the handler allocates for is trapped because it
  // does not translate.
  ghost predicate Raised(su: Setup, u: Whole, bank: Cp15.Bank32, x: u32, va: u32) {
    Cp15.RegAt(bank, 5, 4, 2, 0) / 0x400_0000 == 0x24 ==>
      && Cp15.RegAt(bank, 6, 4, 0, 4) == x / 0x1000 * 16
      && Cp15.RegAt(bank, 6, 4, 0, 0) == va && va % 0x1000 == x % 0x1000
      && (AllocatesFor(x) ==>
            && Translate(u.w.m, u.s.live.vttbr, x) == None
            && Room(su, u.hist, FaultGrant(u.s.cur, x)))
  }

  // Up to the page at 128 MiB, and 0x70000000 to 0x8FFFFFFF.
  predicate AllocatesFor(x: u32) {
    x < 0x800_1000 || 0x7000_0000 <= x < 0x9000_0000
  }

  // The handler finds class and address of the access.
  lemma RaisedParts(su: Setup, u: Whole, bank: Cp15.Bank32, x: u32, va: u32)
    requires Raised(su, u, bank, x, va)
    ensures var y := SyndromeOf(bank);
      && Unmapped(su, u, y) && RoomFor(y, su, u.hist, u.s.cur)
      && y.hsr == Cp15.RegAt(bank, 5, 4, 2, 0) && y.inst == Cp15.RegAt(bank, 5, 4, 1, 0)
      && (y.hsr / 0x400_0000 == 0x24 ==> y.Address() == x)
      && (y.Allocates() <==> y.hsr / 0x400_0000 == 0x24 && AllocatesFor(x))
  {
    hide Translate, Room, Cp15.RegAt, SyndromeOf, FaultAddress;
    SyndromeRegisters(bank);
    Runs.HsrParts(SyndromeOf(bank).hsr);
    AccessedAddress(x, if va % 0x1000 == x % 0x1000 then va else x);
    ServedPages(x);
  }

  // The event that a trap is.
  function TrapEvent(y: Syndrome, hist: seq<Grant>, device: Option<u32>, pushed: Words, after: Words): Event {
    if y.Allocates() then Faulted(y.hsr, y.Address(), pushed)
    else WholeSystem.Handled(Trap(y.hsr, y.Reply(|hist| < PAGE_COUNT, device)), after)
  }

  lemma TrapEventIs(y: Syndrome, hist: seq<Grant>, device: Option<u32>, pushed: Words, after: Words,
                    bank: Cp15.Bank32, x: u32)
    requires y.hsr == Cp15.RegAt(bank, 5, 4, 2, 0) && y.inst == Cp15.RegAt(bank, 5, 4, 1, 0)
    requires y.hsr / 0x400_0000 == 0x24 ==> y.Address() == x
    requires y.Allocates() <==> y.hsr / 0x400_0000 == 0x24 && AllocatesFor(x)
    ensures EventOf(TrapEvent(y, hist, device, pushed, after), bank, x, |hist| < PAGE_COUNT, device)
  {
    hide Cp15.RegAt, AnswerOf, AllocatesFor, FaultAddress, Served, HsrClass;
    Runs.HsrParts(y.hsr);
  }

  lemma FrameTwice(m0: Words, m1: Words, m2: Words)
    requires OnlyFrame(m0, m1) && OnlyFrame(m1, m2)
    ensures OnlyFrame(m0, m2)
  {
  }

  // What module Hypervisor proves of a trap is the event.
  lemma TrapIsEvent(su: Setup, u: Whole, y: Syndrome, device: Option<u32>, pushed: Words, w: World)
    requires Good(su, u) && !u.s.idle && Unmapped(su, u, y) && OnlyFrame(u.w.m, pushed)
    requires Shaped(u.s) && !HypTrap(u.s, y.hsr, y.Reply(|u.hist| < PAGE_COUNT, device)).halted
    requires MemoryAfter(y, su, u.hist, u.s.cur, |su.guests|, u.w.(m := pushed), w)
    ensures var e := TrapEvent(y, u.hist, device, pushed, w.m);
      && WholeSystem.Possible(su, u, e) && (e.Faulted? <==> y.Allocates())
      && Happen(su, u, e)
           == Whole(HypTrap(u.s, y.hsr, y.Reply(|u.hist| < PAGE_COUNT, device)), w, HistoryAfter(y, u.hist, u.s.cur))
  {
    hide Paging.Inv, Runs.Inv, FrameClear, Room, OnlyFrame, Translate, NewPageSpec, TransferOf, HsrClass, IsWfe,
      Served, Schedule, FaultAddress;
    AnswerCases(y.Address(), y.inst, |u.hist| < PAGE_COUNT, device);
    if !y.Allocates() {
      FrameTwice(u.w.m, pushed, w.m);
    }
  }

  // The event a trap is, by the address that was accessed.
  ghost predicate EventOf(e: Event, bank: Cp15.Bank32, x: u32, room: bool, device: Option<u32>) {
    var hsr := Cp15.RegAt(bank, 5, 4, 2, 0);
    if hsr / 0x400_0000 == 0x24 && AllocatesFor(x) then e.Faulted? && e.hsr == hsr && e.x == x
    else
      && e.Handled? && e.step.Trap? && e.step.hsr == hsr
      && (hsr / 0x400_0000 == 0x24 ==> e.step.answer == AnswerOf(x, Cp15.RegAt(bank, 5, 4, 1, 0), room, device))
  }

  // From the exception vector and back: a trap that does not leave the program is one event.  For
  // an access of the guest to an unmapped x it is the one that allocates a page for x.
  method OnTrap(ghost su: Setup, sys: System, core: Core, device: Option<u32>, ghost x: u32, ghost va: u32,
                ghost hist: seq<Grant>)
    returns (ghost e: Event, ghost hist': seq<Grant>)
    requires Operating(su, sys, core, hist) && !sys.halted && !sys.idle
    requires Raised(su, WholeOf(sys, core, hist), sys.hw.cp.bank, x, va)
    modifies sys, sys.parts, sys.hw.Objs(), sys.pts, sys.alloc.Objs(), core, core.r
    ensures !sys.halted ==>
      && Operating(su, sys, core, hist')
      && Good(su, old(WholeOf(sys, core, hist))) && WholeSystem.Possible(su, old(WholeOf(sys, core, hist)), e)
      && WholeOf(sys, core, hist') == Happen(su, old(WholeOf(sys, core, hist)), e)
      && EventOf(e, old(sys.hw.cp.bank), x, |hist| < PAGE_COUNT, device)
  {
    hide System.Valid, System.CoreApart, System.Paged, System.Mapped, System.Running, Operating, WholeOf, Good,
      Happen, WholeSystem.Possible, HypTrap, Raised, TrapEvent, MemoryAfter, SyndromeOf, Syndrome.Reply,
      Syndrome.Allocates, Syndrome.Address, HistoryAfter, OnlyFrame, Room, EventOf, AllocatesFor, Unmapped;
    OperatingIsGood(su, sys, core, hist);
    ghost var u, y := WholeOf(sys, core, hist), SyndromeOf(sys.hw.cp.bank);
    ghost var bank := sys.hw.cp.bank;
    RaisedParts(su, u, bank, x, va);
    ghost var pushed := sys.TakeTrap(core, device, su, hist);
    e, hist' := TrapEvent(y, hist, device, pushed, sys.hw.mem.words), HistoryAfter(y, hist, u.s.cur);
    if !sys.halted {
      sys.PagedParts(su, hist');
      TrapIsEvent(su, u, y, device, pushed, sys.Mapped());
      TrapEventIs(y, hist, device, pushed, sys.hw.mem.words, bank, x);
      EventKeepsGood(su, u, e);
      GoodIsOperating(su, sys, core, hist');
    }
  }

  lemma InterruptIsEvent(su: Setup, u: Whole, pid: nat, w: World)
    requires Good(su, u) && Shaped(u.s) && !Irq(u.s, pid).halted && FrameOnly(u.w, w)
    ensures var e := WholeSystem.Handled(Interrupt(pid), w.m);
      WholeSystem.Possible(su, u, e) && Happen(su, u, e) == Whole(Irq(u.s, pid), w, u.hist)
  {
    hide Paging.Inv, Runs.Inv, FrameClear, OnlyFrame, Irq;
  }

  // From the interrupt vector and back, or into the idle thread: an interrupt is one event.
  method OnInterrupt(ghost su: Setup, sys: System, core: Core, pid: nat, ghost hist: seq<Grant>)
    returns (ghost e: Event)
    requires Operating(su, sys, core, hist) && !sys.halted
    modifies sys, sys.parts, sys.hw.Objs(), core, core.r
    ensures !sys.halted ==>
      && Operating(su, sys, core, hist) && e == WholeSystem.Handled(Interrupt(pid), sys.hw.mem.words)
      && Good(su, old(WholeOf(sys, core, hist))) && WholeSystem.Possible(su, old(WholeOf(sys, core, hist)), e)
      && WholeOf(sys, core, hist) == Happen(su, old(WholeOf(sys, core, hist)), e)
  {
    hide System.Valid, System.Paged, System.Mapped, System.Running, Operating, WholeOf, Good, Happen,
      WholeSystem.Possible, Irq, OnlyFrame;
    OperatingIsGood(su, sys, core, hist);
    sys.PagedParts(su, hist);
    ghost var u := WholeOf(sys, core, hist);
    sys.TakeInterrupt(core, pid);
    e := WholeSystem.Handled(Interrupt(pid), sys.hw.mem.words);
    if !sys.halted {
      sys.StillPaged(su, hist, u.w);
      sys.PagedParts(su, hist);
      InterruptIsEvent(su, u, pid, sys.Mapped());
      EventKeepsGood(su, u, e);
      GoodIsOperating(su, sys, core, hist);
    }
  }
}
