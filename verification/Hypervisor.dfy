// The imperative side of the switch: guests/guest.c, vmm/scheduler.c, vmm/exception_handler.c
// and the interrupt handlers of guests/guest_rpb.c, over hardware and guest objects.  Every
// method is proved to be the function of module Machine with the same name on the state that
// `State` reads off the objects.
module Hypervisor {
  import opened Options
  import opened BitOps
  import opened PhysMem
  import opened ListRegisters
  import opened VirtualDistributor
  import opened Machine
  import opened SaveSet
  import opened PageTable
  import opened Allocator
  import opened Paging
  import opened Faults
  import PagingRuns
  import Cp15

  // boot/include/asm.inc.  handler_template pushes r0-r12 and lr just below and passes this
  // address to the C handler.
  const STACK_HYP_BASE: u32 := 0x600_0000
  const FRAME: nat := 56

  // The stack slot of register rn, which is 0 to 12 or 14.
  function FrameSlot(sp: int, rn: nat): int {
    if rn <= 12 then sp - 4 * (14 - rn) else sp - 4
  }

  function FrameR(m: Words, sp: int): (r: seq<u32>)
    ensures |r| == REGS && forall i :: 0 <= i < REGS ==> r[i] == LoadW(m, FrameSlot(sp, i))
  {
    seq(REGS, i requires 0 <= i < REGS => LoadW(m, FrameSlot(sp, i)))
  }

  lemma SlotsApart(m: Words, sp: int, rn: nat, v: u32)
    requires rn <= 12 || rn == 14
    ensures FrameR(StoreW(m, FrameSlot(sp, rn), v), sp) == if rn <= 12 then FrameR(m, sp)[rn := v] else FrameR(m, sp)
    ensures LoadW(StoreW(m, FrameSlot(sp, rn), v), FrameSlot(sp, 14))
         == if rn == 14 then v else LoadW(m, FrameSlot(sp, 14))
  {
  }

  // Handlers write memory only in the trap frame.
  ghost predicate OnlyFrame(m: Words, m': Words) {
    SameOutside(m, m', STACK_HYP_BASE - FRAME, STACK_HYP_BASE)
  }

  // The trap frame is in no guest's tables.
  ghost predicate FrameClear(su: Setup) {
    forall v :: 0 <= v < |su.guests| ==>
      Apart(STACK_HYP_BASE - FRAME, STACK_HYP_BASE, su.guests[v].ptBase, TableEnd(su, v))
  }

  // Building tables leaves the frame alone.
  lemma FrameKept(su: Setup, m: Words, m': Words, v: nat)
    requires FrameClear(su) && v < |su.guests| && SameOutside(m, m', su.guests[v].ptBase, TableEnd(su, v))
    ensures FrameR(m', STACK_HYP_BASE) == FrameR(m, STACK_HYP_BASE)
    ensures LoadW(m', FrameSlot(STACK_HYP_BASE, 14)) == LoadW(m, FrameSlot(STACK_HYP_BASE, 14))
  {
    hide LoadW, TableEnd;
    forall i | 0 <= i < REGS
      ensures LoadW(m', FrameSlot(STACK_HYP_BASE, i)) == LoadW(m, FrameSlot(STACK_HYP_BASE, i))
    {
      SlotAligned(STACK_HYP_BASE, i);
    }
    SlotAligned(STACK_HYP_BASE, 14);
  }

  // A handler that only wrote its frame.
  ghost predicate FrameOnly(w: World, w': World) {
    OnlyFrame(w.m, w'.m) && w'.ts == w.ts && w'.pool == w.pool
  }

  lemma FrameKeepsPaged(su: Setup, w: World, w': World, hist: seq<Grant>, n: nat)
    requires Inv(su, w, hist, n) && FrameClear(su)
    ensures FrameOnly(w, w') ==> Inv(su, w', hist, n)
  {
    hide Inv, TableEnd, LoadW;
    if FrameOnly(w, w') {
      PagingRuns.MemoryKeepsInv(su, w, w'.m, hist, n);
    }
  }

  // w' is w after memory_allocator_new_page.
  ghost predicate Allocated(su: Setup, w: World, hist: seq<Grant>, n: nat, g: Grant, w': World) {
    Inv(su, w, hist, n) && Grantable(su, hist, n, g) && w' == NewPageSpec(su, w, hist, n, g)
  }

  // What the coprocessor says about a trap: the syndrome, the fault address in two parts, and
  // for the data-abort handler the instruction.
  datatype Syndrome = Syndrome(hsr: u32, hpfar: u32, hdfar: u32, inst: u32) {
    function Address(): u32 {
      FaultAddress(hpfar, hdfar)
    }

    function Reply(room: bool, device: Option<u32>): Answer {
      AnswerOf(Address(), inst, room, device)
    }

    // The trap is a data abort for which a page is allocated.
    predicate Allocates() {
      HsrClass(hsr) == 0x24 && Served(Address())
    }
  }

  lemma SyndromeNames()
    ensures Cp15.Legal(32, Cp15.HSR) && Cp15.Legal(32, Cp15.HPFAR) && Cp15.Legal(32, Cp15.HDFAR)
    ensures Cp15.Legal(32, Cp15.HADFSR)
  {
  }

  function SyndromeOf(bank: Cp15.Bank32): Syndrome {
    SyndromeNames();
    Syndrome(Cp15.ReadName32(bank, Cp15.HSR), Cp15.ReadName32(bank, Cp15.HPFAR), Cp15.ReadName32(bank, Cp15.HDFAR),
             Cp15.ReadName32(bank, Cp15.HADFSR))
  }

  // The registers behind it: HSR, HPFAR, HDFAR, HADFSR.
  lemma SyndromeRegisters(bank: Cp15.Bank32)
    ensures SyndromeOf(bank) == Syndrome(Cp15.RegAt(bank, 5, 4, 2, 0), Cp15.RegAt(bank, 6, 4, 0, 4),
                                         Cp15.RegAt(bank, 6, 4, 0, 0), Cp15.RegAt(bank, 5, 4, 1, 0))
  {
    hide Cp15.ReadName32, Cp15.Value32;
    Cp15.ReadWhole(bank, 5, 4, 2, 0);
    Cp15.ReadWhole(bank, 6, 4, 0, 4);
    Cp15.ReadWhole(bank, 6, 4, 0, 0);
    Cp15.ReadWhole(bank, 5, 4, 1, 0);
  }

  lemma SyndromeParts(bank: Cp15.Bank32)
    ensures Cp15.Legal(32, Cp15.HPFAR) && Cp15.Legal(32, Cp15.HDFAR)
    ensures SyndromeOf(bank).Address()
         == FaultAddress(Cp15.ReadName32(bank, Cp15.HPFAR), Cp15.ReadName32(bank, Cp15.HDFAR))
  {
    hide Cp15.ReadName32;
  }

  lemma ReplyIs(y: Syndrome, room: bool, device: Option<u32>)
    ensures y.Reply(room, device) == AnswerOf(y.Address(), y.inst, room, device)
  {
  }

  lemma SyndromeHsr(bank: Cp15.Bank32)
    ensures Cp15.Legal(32, Cp15.HSR) && SyndromeOf(bank).hsr == Cp15.ReadName32(bank, Cp15.HSR)
  {
    hide Cp15.ReadName32;
  }

  // Level-3 tables suffice should guest v's data abort need a page.
  ghost predicate RoomFor(y: Syndrome, su: Setup, hist: seq<Grant>, v: nat) {
    y.Allocates() ==> Room(su, hist, Grant(v, FaultPage(y.Address())))
  }

  // Tables, pool and memory after a data abort of guest v.
  ghost predicate Handled(y: Syndrome, su: Setup, hist: seq<Grant>, v: nat, n: nat, w: World, w': World) {
    if Served(y.Address()) then Allocated(su, w, hist, n, Grant(v, FaultPage(y.Address())), w')
    else FrameOnly(w, w')
  }

  // The same after any trap.
  ghost predicate MemoryAfter(y: Syndrome, su: Setup, hist: seq<Grant>, v: nat, n: nat, w: World, w': World) {
    if y.Allocates() then Allocated(su, w, hist, n, Grant(v, FaultPage(y.Address())), w') else FrameOnly(w, w')
  }

  lemma AfterTrap(y: Syndrome, su: Setup, hist: seq<Grant>, v: nat, n: nat, w: World, w': World)
    ensures HsrClass(y.hsr) == 0x24 ==>
      && HistoryAfter(y, hist, v) == FaultHistory(y.Address(), hist, v)
      && (Handled(y, su, hist, v, n, w, w') ==> MemoryAfter(y, su, hist, v, n, w, w'))
    ensures HsrClass(y.hsr) != 0x24 ==>
      HistoryAfter(y, hist, v) == hist && (FrameOnly(w, w') ==> MemoryAfter(y, su, hist, v, n, w, w'))
  {
    hide Allocated, FrameOnly;
  }

  lemma RoomForAbort(y: Syndrome, su: Setup, hist: seq<Grant>, v: nat)
    requires RoomFor(y, su, hist, v)
    ensures HsrClass(y.hsr) == 0x24 && Served(y.Address()) ==> Room(su, hist, Grant(v, FaultPage(y.Address())))
  {
  }

  lemma SlotAligned(sp: int, rn: nat)
    requires sp % 4 == 0 && (rn <= 12 || rn == 14)
    ensures FrameSlot(sp, rn) % 4 == 0 && sp - FRAME <= FrameSlot(sp, rn) < sp
  {
  }

  const ZERO_BANKED: Banked := Banked(0, 0, 0, 0, 0, 0, 0, 0, 0, 0, 0, 0, 0, 0, 0, 0, 0, 0)
  const ZERO_CP: CpSet := CpSet(0, 0, 0, 0, 0, 0, 0, 0, 0, 0, 0, 0, 0, 0, 0)

  // The backup a guest starts with.
  function InitialContext(): Ctx {
    Ctx(seq(REGS, _ => 0), 0, ZERO_BANKED.(elrHyp := 0x7000_0000, spsrHyp := 0x4000_01D3),
        ZERO_CP.(sctlr := 0x00C5_0078), 0, 0, seq(LISTS, _ => 0))
  }

  // ---------------------------------------------------------------------------------------
  // Hardware
  // ---------------------------------------------------------------------------------------

  class Hardware {
    var banked: Banked
    const cp: Cp15.Coprocessor
    var ctlr: u32
    const lists: array<u32>
    const mem: Memory

    constructor (memory: Memory)
      ensures Valid() && mem == memory && fresh(Objs() - {memory})
    {
      banked, ctlr := ZERO_BANKED, 0;
      cp := new Cp15.Coprocessor();
      lists := new u32[LISTS](_ => 0);
      mem := memory;
    }

    ghost function Objs(): (s: set<object>)
      ensures this in s && cp in s && lists in s && mem in s
    {
      {this, cp, lists, mem}
    }

    ghost predicate Valid() {
      lists.Length == LISTS
    }

    // The guest's context while a handler runs: r0-r12 and lr are in the trap frame.
    ghost function Framed(): Ctx
      reads Objs()
    {
      Ctx(FrameR(mem.words, STACK_HYP_BASE), LoadW(mem.words, FrameSlot(STACK_HYP_BASE, 14)),
          banked, CpView(cp.bank), Vttbr(cp.bank64), ctlr, lists[..])
    }

    // A write of the VMID field.
    method SetVmid(id: nat)
      requires id < 0x1_0000_0000
      modifies cp
      ensures Framed() == old(Framed()).(vttbr := WithVmid(old(Framed()).vttbr, id))
    {
      hide Cp15.WriteName64, Vttbr, WithVmid, CpView;
      VttbrWrites(cp.bank64, 0, id);
      cp.Write64(Cp15.VTTBR_LPAE_VMID, id);
    }

    // ELR moves by k.
    method AdvanceElr(k: int)
      modifies this
      ensures Framed() == Advance(old(Framed()), k)
    {
      hide CpView, Vttbr, FrameSlot, Add32;
      banked := banked.(elrHyp := Add32(banked.elrHyp, k));
    }

    // write_reg_to_stack, as a write to the guest's register.
    method LoadReg(sp: u32, rt: nat, value: u32) returns (ok: bool)
      requires sp == STACK_HYP_BASE
      modifies mem
      ensures match PutReg(old(Framed()), rt, value)
        case None => !ok && Framed() == old(Framed())
        case Some(c) => ok && Framed() == c
      ensures OnlyFrame(old(mem.words), mem.words)
    {
      hide CpView, Vttbr;
      if rt <= 12 || rt == 14 {
        SlotsApart(mem.words, sp, rt, value);
        SlotAligned(sp, rt);
      }
      ok := WriteRegToStack(sp, rt, value);
    }

    // The loop of guest_rpb_irq_handler; false: no list register is empty.
    method InjectLive(pid: nat, vid: nat) returns (ok: bool)
      requires Valid()
      modifies lists
      ensures match Inject(old(Framed()).list, pid, vid)
        case None => !ok && Framed() == old(Framed())
        case Some(l) => ok && Framed() == old(Framed()).(list := l)
    {
      hide LrWord, ListRegisters.State, CpView, Vttbr, FrameSlot;
      ghost var live := lists[..];
      FirstInvalidIs(live, 0);
      for i := 0 to 64
        invariant lists[..] == live && FirstInvalid(live, 0) == FirstInvalid(live, i)
      {
        FirstInvalidIs(live, i);
        var list := lists[i];
        var free := Empty(list);
        if free {
          list := Fill(list, pid, vid);
          lists[i] := list;
          assert lists[..] == live[i := list];
          return true;
        }
      }
      ok := false;
    }

    // read_reg_from_stack; false: it left the program.
    method ReadRegFromStack(sp: u32, rn: nat) returns (v: u32, ok: bool)
      requires sp % 4 == 0 && sp >= FRAME
      ensures ok == (rn <= 12 || rn == 14)
      ensures ok ==> v == LoadW(mem.words, FrameSlot(sp, rn))
    {
      var offset := 0;
      v, ok := 0, true;
      if rn <= 12 {
        offset := 4 * (14 - rn);
      } else if rn == 14 {
        offset := 4;
      } else {
        ok := false;
        return;
      }
      SlotAligned(sp, rn);
      v := mem.ReadW(sp - offset);
    }

    // write_reg_to_stack; false: it left the program.
    method WriteRegToStack(sp: u32, rn: nat, value: u32) returns (ok: bool)
      requires sp % 4 == 0 && sp >= FRAME
      modifies mem
      ensures ok == (rn <= 12 || rn == 14)
      ensures ok ==> mem.words == StoreW(old(mem.words), FrameSlot(sp, rn), value)
      ensures !ok ==> mem.words == old(mem.words)
    {
      var offset := 0;
      ok := true;
      if rn <= 12 {
        offset := 4 * (14 - rn);
      } else if rn == 14 {
        offset := 4;
      } else {
        ok := false;
        return;
      }
      SlotAligned(sp, rn);
      mem.WriteW(sp - offset, value);
    }
  }

  // r0-r12 and lr, shared by the guest and the handlers.
  class Core {
    const r: array<u32>
    var lrUsr: u32

    constructor ()
      ensures r.Length == REGS && fresh(r)
    {
      r, lrUsr := new u32[REGS](_ => 0), 0;
    }

    // The push of handler_template: lr at the top, r0 lowest.
    method PushFrame(mem: Memory)
      requires r.Length == REGS
      modifies mem
      ensures FrameR(mem.words, STACK_HYP_BASE) == r[..] && LoadW(mem.words, FrameSlot(STACK_HYP_BASE, 14)) == lrUsr
      ensures OnlyFrame(old(mem.words), mem.words)
    {
      SlotAligned(STACK_HYP_BASE, 14);
      mem.WriteW(STACK_HYP_BASE - 4, lrUsr);
      for i := 0 to REGS
        invariant forall k :: 0 <= k < i ==> LoadW(mem.words, FrameSlot(STACK_HYP_BASE, k)) == r[k]
        invariant LoadW(mem.words, FrameSlot(STACK_HYP_BASE, 14)) == lrUsr
        invariant OnlyFrame(old(mem.words), mem.words)
      {
        SlotAligned(STACK_HYP_BASE, i);
        mem.WriteW(STACK_HYP_BASE - 4 * (14 - i), r[i]);
      }
    }

    // The pop of handler_template.
    method PopFrame(mem: Memory)
      requires r.Length == REGS
      modifies this, r
      ensures r[..] == FrameR(mem.words, STACK_HYP_BASE) && lrUsr == LoadW(mem.words, FrameSlot(STACK_HYP_BASE, 14))
    {
      for i := 0 to REGS
        invariant forall k :: 0 <= k < i ==> r[k] == LoadW(mem.words, FrameSlot(STACK_HYP_BASE, k))
      {
        SlotAligned(STACK_HYP_BASE, i);
        var v := mem.ReadW(STACK_HYP_BASE - 4 * (14 - i));
        r[i] := v;
      }
      SlotAligned(STACK_HYP_BASE, 14);
      lrUsr := mem.ReadW(STACK_HYP_BASE - 4);
    }
  }

  // ---------------------------------------------------------------------------------------
  // Guests: the fields of struct guest that the switch and the interrupt handlers use
  // ---------------------------------------------------------------------------------------

  class Guest {
    const id: nat
    var valid: bool
    var realview: bool
    var wfi: Wfi
    var dirty: bool
    const r: array<u32>
    var lrUsr: u32
    var banked: Banked
    var cp: CpSet
    var vttbr: u64
    var ctlr: u32
    const list: array<u32>
    const dist: VDist

    // guest_rpb_init
    constructor (vmId: nat, sys: GicDist)
      requires vmId < 0x1_0000_0000
      ensures Valid() && id == vmId && fresh(Objs())
      ensures View() == Vm(true, true, WfiOut, false, InitialContext(), Pids(seq(VIRQS, _ => UNMAPPED)))
      ensures forall i :: 0 <= i < VIRQS ==> dist.virq[i] == UNMAPPED
    {
      id := vmId;
      valid, realview, wfi, dirty := true, true, WfiOut, false;
      r, lrUsr, vttbr, ctlr := new u32[REGS](_ => 0), 0, 0, 0;
      banked := ZERO_BANKED.(elrHyp := 0x7000_0000, spsrHyp := 0x4000_01D3);
      cp := ZERO_CP.(sctlr := 0x00C5_0078);
      list := new u32[LISTS](_ => 0);
      dist := new VDist(sys);
    }

    ghost function Objs(): (s: set<object>)
      ensures this in s && list in s
    {
      {this, r, list, dist.virq}
    }

    ghost predicate Valid() {
      && id < 0x1_0000_0000
      && r.Length == REGS && list.Length == LISTS && r != list
      && dist.virq.Length == VIRQS
    }

    ghost function Backup(): Ctx
      reads this, r, list
    {
      Ctx(r[..], lrUsr, banked, cp, vttbr, ctlr, list[..])
    }

    ghost function View(): (v: Vm)
      reads Objs()
      ensures v.valid == valid && v.realview == realview && v.wfi == wfi && v.dirty == dirty && v.bk == Backup()
    {
      Vm(valid, realview, wfi, dirty, Backup(), Pids(dist.virq[..]))
    }

    lemma Members(o: object)
      requires o in Objs()
      ensures o == this || o == r || o == list || o == dist.virq
    {
    }

    // guest_backup_rf
    method BackupRf(hw: Hardware, sp: u32)
      requires Valid() && (sp == 0 || sp == STACK_HYP_BASE) && hw.Objs() !! Objs()
      modifies r, this`lrUsr, this`banked
      ensures r[..] == if sp != 0 then hw.Framed().r else old(r[..])
      ensures lrUsr == if sp != 0 then hw.Framed().lrUsr else old(lrUsr)
      ensures banked == hw.banked
    {
      hide Vttbr, CpView;
      if sp != 0 {
        for i := 0 to 13
          invariant forall k :: 0 <= k < i ==> r[k] == LoadW(hw.mem.words, FrameSlot(sp, k))
        {
          var v, _ := hw.ReadRegFromStack(sp, i);
          r[i] := v;
        }
      }
      ghost var saved := r[..];
      banked := banked.(spUsr := hw.banked.spUsr);
      banked := banked.(spSvc := hw.banked.spSvc);
      banked := banked.(spAbt := hw.banked.spAbt);
      banked := banked.(spUnd := hw.banked.spUnd);
      banked := banked.(spIrq := hw.banked.spIrq);
      banked := banked.(spFiq := hw.banked.spFiq);
      if sp != 0 {
        var v, _ := hw.ReadRegFromStack(sp, 14);
        lrUsr := v;
      }
      banked := banked.(lrSvc := hw.banked.lrSvc);
      banked := banked.(lrAbt := hw.banked.lrAbt);
      banked := banked.(lrUnd := hw.banked.lrUnd);
      banked := banked.(lrIrq := hw.banked.lrIrq);
      banked := banked.(lrFiq := hw.banked.lrFiq);
      banked := banked.(spsrSvc := hw.banked.spsrSvc);
      banked := banked.(spsrAbt := hw.banked.spsrAbt);
      banked := banked.(spsrUnd := hw.banked.spsrUnd);
      banked := banked.(spsrIrq := hw.banked.spsrIrq);
      banked := banked.(spsrFiq := hw.banked.spsrFiq);
      banked := banked.(elrHyp := hw.banked.elrHyp);
      banked := banked.(spsrHyp := hw.banked.spsrHyp);
      assert saved == r[..];
    }

    // guest_restore_rf
    method RestoreRf(hw: Hardware, sp: u32)
      requires Valid() && hw.Valid() && (sp == 0 || sp == STACK_HYP_BASE) && hw.Objs() !! Objs()
      modifies hw.mem, hw`banked
      ensures sp == 0 ==> hw.mem.words == old(hw.mem.words)
      ensures sp != 0 ==> hw.Framed().r == r[..] && hw.Framed().lrUsr == lrUsr
      ensures OnlyFrame(old(hw.mem.words), hw.mem.words)
      ensures hw.banked == banked
    {
      hide Vttbr, CpView;
      if sp != 0 {
        for i := 0 to 13
          invariant forall k :: 0 <= k < i ==> LoadW(hw.mem.words, FrameSlot(sp, k)) == r[k]
          invariant OnlyFrame(old(hw.mem.words), hw.mem.words)
        {
          SlotAligned(STACK_HYP_BASE, i);
          var _ := hw.WriteRegToStack(sp, i, r[i]);
        }
      }
      hw.banked := hw.banked.(spUsr := banked.spUsr);
      hw.banked := hw.banked.(spSvc := banked.spSvc);
      hw.banked := hw.banked.(spAbt := banked.spAbt);
      hw.banked := hw.banked.(spUnd := banked.spUnd);
      hw.banked := hw.banked.(spIrq := banked.spIrq);
      hw.banked := hw.banked.(spFiq := banked.spFiq);
      if sp != 0 {
        SlotAligned(STACK_HYP_BASE, 14);
        var _ := hw.WriteRegToStack(sp, 14, lrUsr);
      }
      hw.banked := hw.banked.(lrSvc := banked.lrSvc);
      hw.banked := hw.banked.(lrAbt := banked.lrAbt);
      hw.banked := hw.banked.(lrUnd := banked.lrUnd);
      hw.banked := hw.banked.(lrIrq := banked.lrIrq);
      hw.banked := hw.banked.(lrFiq := banked.lrFiq);
      hw.banked := hw.banked.(spsrSvc := banked.spsrSvc);
      hw.banked := hw.banked.(spsrAbt := banked.spsrAbt);
      hw.banked := hw.banked.(spsrUnd := banked.spsrUnd);
      hw.banked := hw.banked.(spsrIrq := banked.spsrIrq);
      hw.banked := hw.banked.(spsrFiq := banked.spsrFiq);
      hw.banked := hw.banked.(elrHyp := banked.elrHyp);
      hw.banked := hw.banked.(spsrHyp := banked.spsrHyp);
      assert sp != 0 ==> FrameR(hw.mem.words, sp) == r[..];
    }

    // guest_backup_cp15
    method BackupCp15(hw: Hardware)
      modifies this`cp, this`vttbr
      ensures cp == CpView(hw.cp.bank) && vttbr == Vttbr(hw.cp.bank64)
    {
      hide Cp15.ReadName32, Cp15.ReadName64, Cp15.Legal, Cp15.Hsb, Cp15.Lsb, Cp15.FullName, Cp15.Parse64,
        Cp15.Setcr, Cp15.Setcr64, Cp15.Setfd;
      SavedLegal();
      FullVttbr();
      var bk, v := cp, 0;
      v := hw.cp.Read(Cp15.CSSELR);
      bk := bk.(csselr := v);
      v := hw.cp.Read(Cp15.SCTLR);
      bk := bk.(sctlr := v);
      v := hw.cp.Read(Cp15.TTBR0);
      bk := bk.(ttbr0 := v);
      v := hw.cp.Read(Cp15.TTBR1);
      bk := bk.(ttbr1 := v);
      v := hw.cp.Read(Cp15.TTBCR);
      bk := bk.(ttbcr := v);
      v := hw.cp.Read(Cp15.DACR);
      bk := bk.(dacr := v);
      v := hw.cp.Read(Cp15.DFSR);
      bk := bk.(dfsr := v);
      v := hw.cp.Read(Cp15.IFSR);
      bk := bk.(ifsr := v);
      v := hw.cp.Read(Cp15.DFAR);
      bk := bk.(dfar := v);
      v := hw.cp.Read(Cp15.IFAR);
      bk := bk.(ifar := v);
      v := hw.cp.Read(Cp15.PRRR);
      bk := bk.(prrr := v);
      v := hw.cp.Read(Cp15.NMRR);
      bk := bk.(nmrr := v);
      v := hw.cp.Read(Cp15.FCSEIDR);
      bk := bk.(fcseidr := v);
      v := hw.cp.Read(Cp15.CONTEXTIDR);
      bk := bk.(contextidr := v);
      v := hw.cp.Read(Cp15.TPIDR_URO);
      bk := bk.(tpidrUro := v);
      cp := bk;
      vttbr := hw.cp.Read64(Cp15.VTTBR_LPAE);
    }

    // guest_restore_cp15
    method RestoreCp15(hw: Hardware)
      modifies hw.cp
      ensures CpView(hw.cp.bank) == cp && Vttbr(hw.cp.bank64) == vttbr
      ensures OthersKept(old(hw.cp.bank), hw.cp.bank)
    {
      hide Cp15.ReadName32, Cp15.WriteName32, Cp15.Legal, Restored, OthersKept, CpView, Vttbr;
      ghost var bank0 := hw.cp.bank;
      NothingRestored(bank0, cp);
      RestoreOne(bank0, hw.cp.bank, cp, 0);
      hw.cp.Write(Cp15.CSSELR, cp.csselr);
      RestoreOne(bank0, hw.cp.bank, cp, 1);
      hw.cp.Write(Cp15.SCTLR, cp.sctlr);
      RestoreOne(bank0, hw.cp.bank, cp, 2);
      hw.cp.Write(Cp15.TTBR0, cp.ttbr0);
      RestoreOne(bank0, hw.cp.bank, cp, 3);
      hw.cp.Write(Cp15.TTBR1, cp.ttbr1);
      RestoreOne(bank0, hw.cp.bank, cp, 4);
      hw.cp.Write(Cp15.TTBCR, cp.ttbcr);
      RestoreOne(bank0, hw.cp.bank, cp, 5);
      hw.cp.Write(Cp15.DACR, cp.dacr);
      RestoreOne(bank0, hw.cp.bank, cp, 6);
      hw.cp.Write(Cp15.DFSR, cp.dfsr);
      RestoreOne(bank0, hw.cp.bank, cp, 7);
      hw.cp.Write(Cp15.IFSR, cp.ifsr);
      RestoreOne(bank0, hw.cp.bank, cp, 8);
      hw.cp.Write(Cp15.DFAR, cp.dfar);
      RestoreOne(bank0, hw.cp.bank, cp, 9);
      hw.cp.Write(Cp15.IFAR, cp.ifar);
      RestoreOne(bank0, hw.cp.bank, cp, 10);
      hw.cp.Write(Cp15.PRRR, cp.prrr);
      RestoreOne(bank0, hw.cp.bank, cp, 11);
      hw.cp.Write(Cp15.NMRR, cp.nmrr);
      RestoreOne(bank0, hw.cp.bank, cp, 12);
      hw.cp.Write(Cp15.FCSEIDR, cp.fcseidr);
      RestoreOne(bank0, hw.cp.bank, cp, 13);
      hw.cp.Write(Cp15.CONTEXTIDR, cp.contextidr);
      RestoreOne(bank0, hw.cp.bank, cp, 14);
      hw.cp.Write(Cp15.TPIDR_URO, cp.tpidrUro);
      RestoredAll(hw.cp.bank, cp);
      VttbrWrites(hw.cp.bank64, vttbr, 0);
      hw.cp.Write64(Cp15.VTTBR_LPAE, vttbr);
    }

    // guest_backup_list
    method BackupList(hw: Hardware)
      requires Valid() && hw.Valid() && hw.Objs() !! Objs()
      modifies list
      ensures list[..] == hw.lists[..]
    {
      for i := 0 to 64
        invariant list[..i] == hw.lists[..i]
      {
        list[i] := hw.lists[i];
      }
    }

    // guest_restore_list
    method RestoreList(hw: Hardware)
      requires Valid() && hw.Valid() && hw.Objs() !! Objs()
      modifies hw.lists
      ensures hw.lists[..] == list[..]
    {
      for i := 0 to 64
        invariant hw.lists[..i] == list[..i]
      {
        hw.lists[i] := list[i];
      }
    }

    // guest_suspend
    method Suspend(hw: Hardware, sp: u32)
      requires Valid() && hw.Valid() && hw.Objs() !! Objs() && (sp == 0 || sp == STACK_HYP_BASE)
      modifies Objs()
      ensures View() == old(View()).(
        bk := if old(dirty) then Saved(hw.Framed(), old(Backup()), sp != 0) else old(Backup()),
        dirty := false)
      ensures old(dirty) ==>
        && banked == hw.Framed().banked && cp == hw.Framed().cp && vttbr == hw.Framed().vttbr
        && ctlr == hw.Framed().ctlr && list[..] == hw.Framed().list
        && (sp != 0 ==> r[..] == hw.Framed().r && lrUsr == hw.Framed().lrUsr)
    {
      hide CpView, Vttbr, FrameSlot;
      if dirty {
        BackupRf(hw, sp);
        BackupCp15(hw);
        ctlr := hw.ctlr;
        BackupList(hw);
      }
      dirty := false;
    }

    // The restores of guest_restore, up to the VMID.
    method Load(hw: Hardware, sp: u32)
      requires Valid() && hw.Valid() && hw.Objs() !! Objs() && (sp == 0 || sp == STACK_HYP_BASE)
      modifies hw.Objs()
      ensures hw.Framed() == Saved(Backup(), old(hw.Framed()), sp != 0)
      ensures var c := hw.Framed();
        && c.banked == banked && c.cp == cp && c.vttbr == vttbr && c.ctlr == ctlr && c.list == list[..]
        && (sp != 0 ==> c.r == r[..] && c.lrUsr == lrUsr)
        && (sp == 0 ==> c.r == old(hw.Framed()).r && c.lrUsr == old(hw.Framed()).lrUsr)
      ensures OnlyFrame(old(hw.mem.words), hw.mem.words)
    {
      hide CpView, Vttbr, FrameSlot, OnlyFrame, OthersKept;
      RestoreRf(hw, sp);
      RestoreCp15(hw);
      hw.ctlr := ctlr;
      RestoreList(hw);
    }

    // vdev_gic2_dist_irq_to_virq
    method VirqOf(pid: nat) returns (vid: int)
      requires Valid()
      ensures match IrqToVirq(View().virq, pid, 0)
        case None => vid == -1
        case Some(v) => vid == v
    {
      vid := dist.IrqToVirqCode(pid);
    }

    // The loop of guest_rpb_irq_handler_suspend; false: no list register is empty.
    method InjectSaved(pid: nat, vid: nat) returns (ok: bool)
      requires Valid()
      modifies list
      ensures match Inject(old(list[..]), pid, vid)
        case None => !ok && View() == old(View())
        case Some(l) => ok && View() == old(View()).(bk := old(View()).bk.(list := l))
    {
      hide LrWord, ListRegisters.State, Pids;
      ghost var saved := list[..];
      FirstInvalidIs(saved, 0);
      for i := 0 to 64
        invariant list[..] == saved && FirstInvalid(saved, 0) == FirstInvalid(saved, i)
      {
        FirstInvalidIs(saved, i);
        var free := Empty(list[i]);
        if free {
          var w := Fill(list[i], pid, vid);
          list[i] := w;
          assert list[..] == saved[i := w];
          return true;
        }
      }
      ok := false;
    }

    method SetDirty()
      modifies this
      ensures View() == old(View()).(dirty := true)
    {
      dirty := true;
    }

    method SetWfi(w: Wfi)
      modifies this
      ensures View() == old(View()).(wfi := w)
    {
      wfi := w;
    }
  }

  lemma NothingRestored(bank: Cp15.Bank32, c: CpSet)
    ensures Restored(bank, c, 0) && OthersKept(bank, bank)
  {
  }

  // ---------------------------------------------------------------------------------------
  // The globals vm, vm_id and scheduler_idle, and the code that works on them
  // ---------------------------------------------------------------------------------------

  class System {
    const hw: Hardware
    const vm: seq<Guest>
    // The pt fields of the guests, and sys_mem_allocator.
    const pts: seq<PagetableLd>
    const alloc: MemoryAllocator
    var vmId: nat
    var idle: bool
    var halted: bool

    // The objects of the guests.
    ghost const parts: set<object>

    constructor (hardware: Hardware, guests: seq<Guest>, tables: seq<PagetableLd>, allocator: MemoryAllocator)
      requires SystemParts(hardware, guests) && TablesApart(hardware, guests, tables, allocator)
      ensures Valid() && TablesOwned()
      ensures hw == hardware && vm == guests && pts == tables && alloc == allocator
      ensures vmId == 0 && !idle && !halted && fresh(this) && parts == GuestObjs(guests)
    {
      hide SystemParts, Guest.Objs, Hardware.Objs, MemoryAllocator.Objs, TablesApart, GuestObjs;
      hw, vm, vmId, idle, halted := hardware, guests, 0, false, false;
      pts, alloc := tables, allocator;
      parts := GuestObjs(guests);
      new;
      PartsOf(hw, vm);
      NotAPart(hw, vm, this);
      NoParts(hw, vm, pts, alloc, this);
    }

    // Tables and pool are none of the other objects.
    ghost predicate TablesOwned() {
      && (forall i :: 0 <= i < |pts| ==>
            pts[i] as object !in hw.Objs() && pts[i] as object !in parts && pts[i] as object != this)
      && alloc.Objs() !! hw.Objs() && alloc.Objs() !! parts && this !in alloc.Objs()
    }

    // Memory, tables and pool.
    ghost function Mapped(): World
      requires alloc.Shaped()
      reads hw.mem, pts, alloc.Objs()
    {
      WorldOf(hw.mem, pts, alloc)
    }

    // The tables are built by the allocations hist, and the trap frame is in none of them.
    ghost predicate Paged(su: Setup, hist: seq<Grant>)
      reads hw.mem, pts, alloc.Objs()
    {
      && TablesOwned() && FrameClear(su) && |vm| == |su.guests|
      && Ready(su, hw.mem, pts, alloc, hist, |vm|)
    }

    ghost predicate Owned() {
      && (forall i :: 0 <= i < |vm| ==> vm[i].Objs() <= parts)
      && hw.Objs() !! parts
      && this !in hw.Objs() && this !in parts
    }

    ghost predicate Valid()
      reads this`vmId
    {
      SystemParts(hw, vm) && Owned() && vmId < |vm|
    }

    ghost function Views(): (r: seq<Vm>)
      requires Owned()
      reads parts
      ensures |r| == |vm| && forall i :: 0 <= i < |vm| ==> r[i] == vm[i].View()
    {
      seq(|vm|, i requires 0 <= i < |vm| reads parts => vm[i].View())
    }

    // The abstract state while a handler runs.
    ghost function State(): Sys
      requires Owned()
      reads this, hw.Objs(), parts
    {
      Sys(hw.Framed(), Views(), vmId, idle, halted)
    }

    lemma Apart(j: nat)
      requires SystemParts(hw, vm) && j < |vm|
      ensures 4 <= |vm| && vm[j].Valid() && vm[j].id == j < 0x1_0000_0000 && hw.Valid() && hw.Objs() !! vm[j].Objs()
      ensures forall i :: 0 <= i < |vm| && i != j ==> vm[i].Objs() !! vm[j].Objs()
    {
    }

    // guest_suspend for guest j
    method Suspend(j: nat, sp: u32)
      requires Valid() && j < |vm| && (sp == 0 || sp == STACK_HYP_BASE)
      modifies parts
      ensures State() == Machine.Suspend(old(State()), j, sp != 0)
    {
      hide SystemParts, Views, Guest.View, Hardware.Framed, Saved, Guest.Valid, Hardware.Valid;
      Apart(j);
      vm[j].Suspend(hw, sp);
      assert Views() == old(Views())[j := vm[j].View()];
    }

    method SetDirty(j: nat)
      requires Valid() && j < |vm|
      modifies parts
      ensures State() == var s := old(State()); s.(vm := s.vm[j := s.vm[j].(dirty := true)])
    {
      hide SystemParts, Views, Guest.View, Hardware.Framed, Guest.Valid, Hardware.Valid;
      Apart(j);
      vm[j].SetDirty();
      assert Views() == old(Views())[j := vm[j].View()];
    }

    method SetWfi(j: nat, w: Wfi)
      requires Valid() && j < |vm|
      modifies parts
      ensures State() == var s := old(State()); s.(vm := s.vm[j := s.vm[j].(wfi := w)])
    {
      hide SystemParts, Views, Guest.View, Hardware.Framed, Guest.Valid, Hardware.Valid;
      Apart(j);
      vm[j].SetWfi(w);
      assert Views() == old(Views())[j := vm[j].View()];
    }

    // guest_restore for guest j
    method Restore(j: nat, sp: u32)
      requires Valid() && j < |vm| && (sp == 0 || sp == STACK_HYP_BASE)
      modifies this`vmId, this`halted, parts, hw.Objs()
      ensures State() == Machine.Restore(old(State()), j, sp != 0)
      ensures Valid()
      ensures OnlyFrame(old(hw.mem.words), hw.mem.words)
    {
      hide SystemParts, Views, Guest.View, Hardware.Framed, Saved, Guest.Valid, Hardware.Valid, WithVmid;
      Apart(j);
      assert Views()[j] == vm[j].View();
      if !vm[j].dirty {
        LoadGuest(j, sp);
        vmId := vm[j].id;
        hw.SetVmid(vmId);
        assert Views() == old(Views());
      } else {
        halted := true;
        return;
      }
      SetDirty(j);
    }

    method LoadGuest(j: nat, sp: u32)
      requires Valid() && j < |vm| && (sp == 0 || sp == STACK_HYP_BASE)
      modifies hw.Objs()
      ensures State() == var s := old(State()); s.(live := Saved(s.vm[j].bk, s.live, sp != 0))
      ensures OnlyFrame(old(hw.mem.words), hw.mem.words)
    {
      hide SystemParts, Views, Guest.View, Hardware.Framed, Saved, Guest.Valid, Hardware.Valid;
      Apart(j);
      vm[j].Load(hw, sp);
    }

    // A guest marked for wake-up runs again.
    method LeaveWfi(j: nat)
      requires Valid() && j < |vm|
      modifies parts
      ensures State() == var s := old(State()); s.(vm := s.vm[j := Wake(s.vm[j])])
    {
      hide SystemParts, Views, Guest.View, Hardware.Framed, Guest.Valid, Hardware.Valid;
      Apart(j);
      assert State().vm[j] == vm[j].View();
      if vm[j].wfi == WfiPending {
        SetWfi(j, WfiOut);
      }
    }

    // The switch inside the loop of scheduler_rr; false: it left the program.
    method SwitchTo(next: nat, sp: u32) returns (ret: bool)
      requires Valid() && next < |vm| && sp == STACK_HYP_BASE
      modifies this, parts, hw.Objs()
      ensures Valid() && State() == Machine.SwitchTo(old(State()), next)
      ensures OnlyFrame(old(hw.mem.words), hw.mem.words)
      ensures !halted ==> ret && !idle
    {
      hide Machine.Suspend, Machine.Restore, SystemParts, Views, Guest.View, Guest.Objs, Hardware.Framed, OnlyFrame,
        Wake;
      var prev := vmId;
      LeaveWfi(next);
      Suspend(prev, sp);
      Restore(next, sp);
      if halted {
        return false;
      }
      idle := false;
      return true;
    }

    // The search of scheduler_rr.
    method FindNext() returns (next: nat, found: bool)
      requires Valid()
      ensures match Pick(State().vm, vmId, 0)
        case None => !found
        case Some(j) => found && next == j < |vm|
    {
      hide SystemParts, Guest.View, Guest.Objs, Hardware.Framed, Views;
      ghost var s := State();
      PickIs(s.vm, s.cur, 0);
      var vmCount := |vm|;
      next, found := vmId, false;
      for i := 0 to vmCount
        invariant next == Wrap(vmId + i, vmCount) && !found
        invariant Pick(s.vm, s.cur, 0) == Pick(s.vm, s.cur, i)
      {
        next := next + 1;
        if next == vmCount {
          next := 0;
        }
        var vmValid := vm[next].valid;
        var notInWfi := vm[next].wfi != WfiIn;
        assert s.vm[next] == vm[next].View();
        if vmValid && notInWfi {
          return next, true;
        }
      }
    }

    // scheduler_rr; false: it entered the idle thread or left the program.
    method Scheduler(sp: u32) returns (ret: bool)
      requires Valid() && sp == STACK_HYP_BASE
      modifies this, parts, hw.Objs()
      ensures Valid() && State() == Schedule(old(State()))
      ensures OnlyFrame(old(hw.mem.words), hw.mem.words)
      ensures !halted ==> ret == !idle
    {
      hide Machine.Suspend, Machine.SwitchTo, SystemParts, Guest.View, Guest.Objs, Hardware.Framed, Views, Pick;
      var next, found := FindNext();
      if found {
        ret := SwitchTo(next, sp);
        return;
      }
      // No guest is runnable.
      Suspend(vmId, sp);
      idle := true;
      ret := false;
    }

    // ---------------------------------------------------------------------------------------
    // Interrupts (guests/guest_rpb.c, vmm/exception_handler.c)
    // ---------------------------------------------------------------------------------------

    // guest_rpb_irq_handler: the guest's list registers are in the hardware.
    method IrqHandlerLive(t: nat, pid: nat)
      requires Valid() && t < |vm|
      modifies this`halted, hw.lists
      ensures Valid()
      ensures var s := old(State()); var vid := IrqToVirq(s.vm[t].virq, pid, 0);
        if pid == 1023 then State() == s
        else if vid.None? then State() == s.(halted := true)
        else match Inject(s.live.list, pid, vid.value)
          case None => State() == s.(halted := true)
          case Some(l) => State() == s.(live := s.live.(list := l))
    {
      hide SystemParts, Views, Guest.View, Hardware.Framed, Inject, IrqToVirq;
      if pid == 1023 {
        return;
      }
      Apart(t);
      var vid := vm[t].VirqOf(pid);
      if vid == -1 {
        halted := true;
        return;
      }
      var ok := hw.InjectLive(pid, vid);
      if !ok {
        halted := true;
      }
    }

    // guest_rpb_irq_handler_suspend: they are in its backup.
    method IrqHandlerSuspend(t: nat, pid: nat)
      requires Valid() && t < |vm|
      modifies this`halted, vm[t].list
      ensures Valid()
      ensures var s := old(State()); var vid := IrqToVirq(s.vm[t].virq, pid, 0);
        if pid == 1023 then State() == s
        else if vid.None? then State() == s.(halted := true)
        else match Inject(s.vm[t].bk.list, pid, vid.value)
          case None => State() == s.(halted := true)
          case Some(l) => State() == s.(vm := s.vm[t := s.vm[t].(bk := s.vm[t].bk.(list := l))])
    {
      hide SystemParts, Views, Guest.View, Hardware.Framed, Inject, IrqToVirq;
      if pid == 1023 {
        return;
      }
      Apart(t);
      var vid := vm[t].VirqOf(pid);
      if vid == -1 {
        halted := true;
        return;
      }
      var ok := vm[t].InjectSaved(pid, vid);
      if !ok {
        halted := true;
        return;
      }
      assert Views() == old(Views())[t := vm[t].View()];
    }

    // The part of irq_handler behind the switch on pid; false: control does not come back.
    method DeviceIrq(t: nat, pid: nat, sp: u32) returns (ret: bool)
      requires Valid() && !halted && t < |vm| && pid != 1023 && sp == STACK_HYP_BASE
      modifies this, parts, hw.Objs()
      ensures Valid() && State() == Machine.DeviceIrq(old(State()), t, pid)
      ensures OnlyFrame(old(hw.mem.words), hw.mem.words)
      ensures !halted ==> ret == !idle
    {
      hide SystemParts, Views, Guest.View, Hardware.Framed, Inject, IrqToVirq, Schedule, Guest.Objs,
        Hardware.Objs, Hardware.Valid;
      Apart(t);
      assert State().vm[t] == vm[t].View();
      if !vm[t].realview {
        halted := true;
        return false;
      }
      if vm[t].dirty && vm[t].wfi != WfiIn {
        IrqHandlerLive(t, pid);
      } else {
        IrqHandlerSuspend(t, pid);
      }
      if halted {
        return false;
      }
      assert State().vm[t] == vm[t].View();
      if vm[t].wfi == WfiIn {
        SetWfi(t, WfiPending);
      }
      ret := true;
      if idle {
        ret := Scheduler(sp);
      }
    }

    // irq_handler; pid is what the acknowledge register returned.
    method IrqHandler(sp: u32, pid: nat) returns (ret: bool)
      requires Valid() && !halted && sp == STACK_HYP_BASE
      modifies this, parts, hw.Objs()
      ensures Valid() && State() == Irq(old(State()), pid)
      ensures OnlyFrame(old(hw.mem.words), hw.mem.words)
      ensures !halted ==> ret == (!idle || pid == 1023)
    {
      hide SystemParts, Views, Guest.View, Hardware.Framed, Schedule, Machine.DeviceIrq, Guest.Objs,
        Hardware.Objs, Hardware.Valid;
      Apart(vmId);
      var target;
      match pid {
        case 34 =>
          ret := Scheduler(sp);
          return;
        case 40 | 44 | 48 => target := 0;
        case 41 | 45 | 49 => target := 1;
        case 42 | 46 | 50 => target := 2;
        case 43 | 47 | 51 => target := 3;
        case 1023 => return true;
        case _ =>
          halted := true;
          return false;
      }
      ret := DeviceIrq(target, pid, sp);
    }

    // ---------------------------------------------------------------------------------------
    // Traps (vmm/exception_handler.c)
    // ---------------------------------------------------------------------------------------

    lemma StateIsShaped()
      requires Valid()
      ensures Shaped(State())
    {
      hide CpView, Vttbr, FrameSlot;
      assert forall i :: 0 <= i < |vm| ==> State().vm[i] == vm[i].View();
    }

    lemma PagedParts(su: Setup, hist: seq<Grant>)
      requires Paged(su, hist)
      ensures TablesOwned() && FrameClear(su) && |vm| == |su.guests| && Distinct(hw.mem, pts, alloc)
      ensures Inv(su, Mapped(), hist, |vm|) && alloc.Valid() && alloc.memBase == su.memBase
      ensures Mapped() == World(hw.mem.words, Vals(pts), alloc.View())
    {
    }

    // The RAM branches of guest_rpb_hyp_trap_dabort_handler; false: no page is left.
    method MapFault(ipa: u32, base: u32, ghost su: Setup, ghost hist: seq<Grant>) returns (ok: bool)
      requires Valid() && Paged(su, hist) && Served(ipa) && base == ipa - ipa % 0x1000
      requires Room(su, hist, Grant(vmId, FaultPage(ipa)))
      modifies hw.mem, pts, alloc.Objs()
      ensures State() == old(State()) && ok == (|hist| < PAGE_COUNT)
      ensures ok ==> Allocated(su, old(Mapped()), hist, |vm|, Grant(vmId, FaultPage(ipa)), Mapped())
      ensures ok ==> Paged(su, hist + [Grant(vmId, FaultPage(ipa))])
    {
      hide SystemParts, Views, Guest.View, Guest.Objs, CpView, Vttbr, FrameSlot, Inv, Room, NewPageSpec, TableEnd;
      BranchPage(ipa);
      ghost var m := hw.mem.words;
      var branch := Dispatch(base);
      var pa;
      if branch == LowRam {
        pa, ok := NewPage(su, hw.mem, pts, alloc, vmId, base, base + 0x7000_0000, hist, |vm|);
      } else {
        pa, ok := NewPage(su, hw.mem, pts, alloc, vmId, base - 0x7000_0000, base, hist, |vm|);
      }
      if ok {
        FrameKept(su, m, hw.mem.words, vmId);
      }
    }

    // The device branches: the trapped instruction is carried out on the saved registers.
    method DeviceAccess(sp: u32, base: u32, device: Option<u32>)
      requires Valid() && !halted && sp == STACK_HYP_BASE && Shaped(State()) && BranchOf(base) == Device
      requires base % 0x1000 == 0
      modifies this`halted, hw.Objs()
      ensures Valid()
      ensures State() == DataAbort(old(State()), AnswerOf(base, SyndromeOf(old(hw.cp.bank)).inst, true, device))
      ensures OnlyFrame(old(hw.mem.words), hw.mem.words)
    {
      hide SystemParts, Views, Guest.View, Hardware.Framed, Guest.Objs, TransferOf, Cp15.ReadName32, BranchOf;
      SyndromeNames();
      var inst := hw.cp.Read(Cp15.HADFSR);
      var t := DecodeInst(inst);
      if t.None? || !Emulated(base) || device.None? {
        halted := true;
        return;
      }
      var ok;
      if t.value.isLoad {
        ok := hw.LoadReg(sp, t.value.rt, device.value);
      } else {
        var v;
        v, ok := hw.ReadRegFromStack(sp, t.value.rt);
      }
      if !ok {
        halted := true;
      }
    }

    // Since state w only memory has changed, and of it only the frame.
    lemma StillPaged(su: Setup, hist: seq<Grant>, w: World)
      requires TablesOwned() && FrameClear(su) && |vm| == |su.guests| && Distinct(hw.mem, pts, alloc)
      requires Inv(su, w, hist, |vm|) && OnlyFrame(w.m, hw.mem.words)
      requires Vals(pts) == w.ts && alloc.View() == w.pool && alloc.Valid() && alloc.memBase == su.memBase
      ensures Paged(su, hist) && FrameOnly(w, Mapped())
    {
      hide Inv, OnlyFrame, MemoryAllocator.View;
      FrameKeepsPaged(su, w, Mapped(), hist, |vm|);
    }

    // A RAM branch to its end.
    method RamFault(ipa: u32, base: u32, ghost su: Setup, ghost hist: seq<Grant>)
      requires Valid() && !halted && Paged(su, hist) && Served(ipa) && base == ipa - ipa % 0x1000
      requires Room(su, hist, Grant(vmId, FaultPage(ipa))) && Shaped(State())
      modifies this`halted, hw, hw.mem, pts, alloc.Objs()
      ensures Valid() && SyndromeOf(hw.cp.bank) == SyndromeOf(old(hw.cp.bank))
      ensures State() == DataAbort(old(State()), if |hist| < PAGE_COUNT then Redo else GiveUp)
      ensures !halted ==> Allocated(su, old(Mapped()), hist, |vm|, Grant(vmId, FaultPage(ipa)), Mapped())
      ensures !halted ==> Paged(su, hist + [Grant(vmId, FaultPage(ipa))])
    {
      hide SystemParts, Views, Guest.View, Hardware.Framed, Guest.Objs, Inv, Room, NewPageSpec, Paged, WorldOf,
        Allocated, Served, FaultPage, SyndromeOf;
      PagedParts(su, hist);
      var ok := MapFault(ipa, base, su, hist);
      if !ok {
        halted := true;
        return;
      }
      // Back to the instruction that faulted.
      hw.AdvanceElr(-4);
    }

    // guest_rpb_hyp_trap_dabort_handler; device is what an emulated device answers, None if it
    // leaves the program.
    method DabortHandler(sp: u32, device: Option<u32>, ghost su: Setup, ghost hist: seq<Grant>)
      requires Valid() && !halted && sp == STACK_HYP_BASE && Shaped(State()) && Paged(su, hist)
      requires Served(SyndromeOf(hw.cp.bank).Address()) ==>
                 Room(su, hist, Grant(vmId, FaultPage(SyndromeOf(hw.cp.bank).Address())))
      modifies this`halted, hw.Objs(), pts, alloc.Objs()
      ensures Valid()
      ensures State() == DataAbort(old(State()), SyndromeOf(old(hw.cp.bank)).Reply(|hist| < PAGE_COUNT, device))
      ensures !halted ==> Handled(SyndromeOf(old(hw.cp.bank)), su, hist, vmId, |vm|, old(Mapped()), Mapped())
      ensures !halted ==>
        Paged(su, FaultHistory(SyndromeOf(old(hw.cp.bank)).Address(), hist, vmId))
    {
      hide SystemParts, Views, Guest.View, Hardware.Framed, Guest.Objs, TransferOf, Cp15.ReadName32, BranchOf, Inv,
        Room, NewPageSpec, OnlyFrame, Paged, WorldOf, Allocated, AnswerOf, Served, FaultPage, DataAbort, SyndromeOf,
        Syndrome.Reply, FaultAddress;
      SyndromeParts(hw.cp.bank);
      PagedParts(su, hist);
      SyndromeNames();
      ghost var y := SyndromeOf(hw.cp.bank);
      var hdfar := hw.cp.Read(Cp15.HDFAR);
      var hpfar := hw.cp.Read(Cp15.HPFAR);
      var ipa, base := DecodeFault(hpfar, hdfar);
      ReplyIs(y, |hist| < PAGE_COUNT, device);
      AnswerCases(ipa, y.inst, |hist| < PAGE_COUNT, device);
      var branch := Dispatch(base);
      if branch != Device {
        RamFault(ipa, base, su, hist);
      } else {
        DeviceAccess(sp, base, device);
        StillPaged(su, hist, old(Mapped()));
      }
    }

    // The WFI case of hyp_trap_handler.
    method Wfi(sp: u32) returns (ret: bool)
      requires Valid() && !halted && sp == STACK_HYP_BASE
      modifies this, parts, hw.Objs()
      ensures Valid() && State() == WaitForInterrupt(old(State()))
      ensures OnlyFrame(old(hw.mem.words), hw.mem.words)
      ensures !halted ==> ret == !idle
    {
      hide SystemParts, Views, Guest.View, Hardware.Framed, Guest.Objs, Hardware.Objs, Schedule;
      SetWfi(vmId, WfiIn);
      ret := Scheduler(sp);
    }

    // The cases of hyp_trap_handler that are no data aborts.
    method OtherTrap(sp: u32, ec: nat, iss: nat) returns (ret: bool)
      requires Valid() && !halted && !idle && sp == STACK_HYP_BASE && ec != 0x24
      modifies this, parts, hw.Objs()
      ensures Valid() && State() == Machine.OtherTrap(old(State()), ec, GetBit(32, iss, 0) != 0)
      ensures OnlyFrame(old(hw.mem.words), hw.mem.words)
      ensures !halted ==> ret == !idle
    {
      hide SystemParts, Views, Guest.View, Hardware.Framed, Guest.Objs, WaitForInterrupt, GetBit;
      ret := true;
      if ec == 0x01 {
        if GetBit(32, iss, 0) == 0 {
          ret := Wfi(sp);
        } else {
          halted := true; // wfe
        }
      } else if ec == 0x03 || ec == 0x04 || ec == 0x05 {
        // cp15 and cp14 accesses are skipped
      } else if ec == 0x12 {
        hw.AdvanceElr(-4); // hypervisor_call
      } else {
        halted := true;
      }
    }

    // The switch of hyp_trap_handler.
    method TrapOfClass(sp: u32, ec: nat, iss: nat, device: Option<u32>, ghost su: Setup, ghost hist: seq<Grant>)
      returns (ret: bool)
      requires Valid() && !halted && !idle && sp == STACK_HYP_BASE && Shaped(State()) && Paged(su, hist)
      requires ec == HsrClass(SyndromeOf(hw.cp.bank).hsr) && RoomFor(SyndromeOf(hw.cp.bank), su, hist, vmId)
      modifies this, parts, hw.Objs(), pts, alloc.Objs()
      ensures Valid()
      ensures State() == Machine.TrapOfClass(old(State()), ec, GetBit(32, iss, 0) != 0,
                                             SyndromeOf(old(hw.cp.bank)).Reply(|hist| < PAGE_COUNT, device))
      ensures !halted ==> MemoryAfter(SyndromeOf(old(hw.cp.bank)), su, hist, old(vmId), |vm|, old(Mapped()), Mapped())
      ensures !halted ==> Paged(su, HistoryAfter(SyndromeOf(old(hw.cp.bank)), hist, old(vmId)))
      ensures !halted ==> ret == !idle
    {
      hide SystemParts, Views, Guest.View, Hardware.Framed, Guest.Objs, GetBit, DataAbort, Inv, Room, NewPageSpec,
        Syndrome.Reply, Syndrome.Address, Handled, Paged, WorldOf, OnlyFrame, Machine.OtherTrap, Served, FaultPage,
        SyndromeOf, Mapped, Allocated, MemoryAfter, HistoryAfter, FaultHistory, Syndrome.Allocates, RoomFor,
        HsrClass;
      PagedParts(su, hist);
      ghost var y := SyndromeOf(hw.cp.bank);
      RoomForAbort(y, su, hist, vmId);
      assert State().vm[vmId] == vm[vmId].View();
      ret := true;
      if !vm[vmId].realview {
        halted := true;
      } else if ec == 0x24 {
        DabortHandler(sp, device, su, hist);
        AfterTrap(y, su, hist, old(vmId), |vm|, old(Mapped()), Mapped());
      } else {
        ret := OtherTrap(sp, ec, iss);
        StillPaged(su, hist, old(Mapped()));
        AfterTrap(y, su, hist, old(vmId), |vm|, old(Mapped()), Mapped());
      }
    }

    // hyp_trap_handler
    method HypTrapHandler(sp: u32, device: Option<u32>, ghost su: Setup, ghost hist: seq<Grant>)
      returns (ret: bool)
      requires Valid() && !halted && !idle && sp == STACK_HYP_BASE && Shaped(State()) && Paged(su, hist)
      requires RoomFor(SyndromeOf(hw.cp.bank), su, hist, vmId)
      modifies this, parts, hw.Objs(), pts, alloc.Objs()
      ensures Valid()
      ensures State() == HypTrap(old(State()), SyndromeOf(old(hw.cp.bank)).hsr,
                                 SyndromeOf(old(hw.cp.bank)).Reply(|hist| < PAGE_COUNT, device))
      ensures !halted ==> MemoryAfter(SyndromeOf(old(hw.cp.bank)), su, hist, old(vmId), |vm|, old(Mapped()), Mapped())
      ensures !halted ==> Paged(su, HistoryAfter(SyndromeOf(old(hw.cp.bank)), hist, old(vmId)))
      ensures !halted ==> ret == !idle
    {
      hide SystemParts, Views, Guest.View, Hardware.Framed, Guest.Objs, GetField, GetBit, Cp15.ReadName32,
        Machine.TrapOfClass, Inv, Syndrome.Reply, Paged, SyndromeOf, Mapped, MemoryAfter, HistoryAfter, RoomFor,
        HsrClass, IsWfe;
      PagedParts(su, hist);
      SyndromeHsr(hw.cp.bank);
      hw.AdvanceElr(4);
      var hsr := hw.cp.Read(Cp15.HSR);
      HsrFields(hsr);
      var ec := GetField(32, hsr, 31, 26);
      var iss := GetField(32, hsr, 24, 0);
      ret := TrapOfClass(sp, ec, iss, device, su, hist);
    }

    // ---------------------------------------------------------------------------------------
    // Entry and return (boot/vector.s, handler_template)
    // ---------------------------------------------------------------------------------------

    // The abstract state while a guest, or the idle thread, runs: r0-r12 and lr are in the core.
    ghost function Running(core: Core): Sys
      requires Owned()
      reads this, hw.Objs(), parts, core, core.r
    {
      var s := State();
      s.(live := s.live.(r := core.r[..], lrUsr := core.lrUsr))
    }

    ghost predicate CoreApart(core: Core) {
      && core.r.Length == REGS && {core, core.r} !! hw.Objs() && {core, core.r} !! parts
      && {core, core.r} !! alloc.Objs() && forall i :: 0 <= i < |pts| ==> pts[i] as object !in {core, core.r}
    }

    method Push(core: Core)
      requires Valid() && CoreApart(core)
      modifies hw.mem
      ensures State() == old(Running(core))
      ensures OnlyFrame(old(hw.mem.words), hw.mem.words)
    {
      hide SystemParts, Views, Guest.View, CpView, Vttbr, FrameSlot;
      core.PushFrame(hw.mem);
    }

    method Pop(core: Core)
      requires Valid() && CoreApart(core)
      modifies core, core.r
      ensures Running(core) == old(State()) && State() == old(State())
    {
      hide SystemParts, Views, Guest.View, CpView, Vttbr, FrameSlot;
      core.PopFrame(hw.mem);
      assert core.r[..] == State().live.r;
    }

    // An interrupt: the registers are pushed, irq_handler runs, and unless it enters the idle
    // thread the registers are popped.  For guests and idle thread this is the step Irq.
    method TakeInterrupt(core: Core, pid: nat)
      requires Valid() && !halted && CoreApart(core)
      modifies this, parts, hw.Objs(), core, core.r
      ensures Valid() && halted == Irq(old(Running(core)), pid).halted
      ensures !halted ==> Running(core) == Irq(old(Running(core)), pid)
      ensures OnlyFrame(old(hw.mem.words), hw.mem.words)
    {
      hide SystemParts, Views, Guest.View, Hardware.Framed, Irq, Guest.Objs;
      Apart(vmId);
      Push(core);
      ghost var s := State();
      var ret := IrqHandler(STACK_HYP_BASE, pid);
      if halted {
        return;
      }
      if ret {
        Pop(core);
      } else {
        IdleKeepsRegisters(s, pid);
      }
    }

    // A trap from a guest to hyp mode, in the same way the step HypTrap.  `pushed` is memory with
    // the trap frame in place.
    method TakeTrap(core: Core, device: Option<u32>, ghost su: Setup, ghost hist: seq<Grant>)
      returns (ghost pushed: Words)
      requires Valid() && !halted && !idle && CoreApart(core) && Paged(su, hist)
      requires RoomFor(SyndromeOf(hw.cp.bank), su, hist, vmId)
      modifies this, parts, hw.Objs(), pts, alloc.Objs(), core, core.r
      ensures Shaped(old(Running(core))) && Valid() && OnlyFrame(old(hw.mem.words), pushed)
      ensures var s := HypTrap(old(Running(core)), SyndromeOf(old(hw.cp.bank)).hsr,
                               SyndromeOf(old(hw.cp.bank)).Reply(|hist| < PAGE_COUNT, device));
        halted == s.halted && (!halted ==> Running(core) == s)
      ensures !halted ==>
        MemoryAfter(SyndromeOf(old(hw.cp.bank)), su, hist, old(vmId), |vm|, old(Mapped()).(m := pushed), Mapped())
      ensures !halted ==>
        Paged(su, HistoryAfter(SyndromeOf(old(hw.cp.bank)), hist, old(vmId)))
    {
      hide SystemParts, Views, Guest.View, Hardware.Framed, HypTrap, Guest.Objs, Cp15.ReadName32, Inv, Room,
        NewPageSpec, Syndrome.Reply, Handled, RoomFor, Syndrome.Allocates, Syndrome.Address, FaultPage, OnlyFrame,
        Paged, SyndromeOf, HistoryAfter, Allocated, WorldOf;
      PagedParts(su, hist);
      Push(core);
      StateIsShaped();
      pushed := hw.mem.words;
      StillPaged(su, hist, old(Mapped()));
      PagedParts(su, hist);
      assert Mapped() == old(Mapped()).(m := pushed);
      ghost var s, y := State(), SyndromeOf(hw.cp.bank);
      var ret := HypTrapHandler(STACK_HYP_BASE, device, su, hist);
      if halted {
        return;
      }
      if ret {
        Pop(core);
      } else {
        TrapKeepsRegisters(s, y.hsr, y.Reply(|hist| < PAGE_COUNT, device));
      }
    }
  }

  // The allocations after a trap of guest v.
  function HistoryAfter(y: Syndrome, hist: seq<Grant>, v: nat): seq<Grant> {
    if HsrClass(y.hsr) == 0x24 then FaultHistory(y.Address(), hist, v) else hist
  }

  // The allocations after a data abort of guest v at x.
  function FaultHistory(x: u32, hist: seq<Grant>, v: nat): seq<Grant> {
    if Served(x) then hist + [Grant(v, FaultPage(x))] else hist
  }

  // A handler that enters the idle thread leaves the trap frame as it found it.
  lemma IdleKeepsRegisters(s: Sys, pid: nat)
    requires s.cur < |s.vm| && |s.vm| >= 4 && Irq(s, pid).idle && !Irq(s, pid).halted && !s.halted
    ensures Irq(s, pid).live.r == s.live.r && Irq(s, pid).live.lrUsr == s.live.lrUsr
  {
    hide Inject, Pick, WithVmid;
  }

  lemma TrapKeepsRegisters(s: Sys, hsr: u32, a: Answer)
    requires Shaped(s) && !s.idle && HypTrap(s, hsr, a).idle && !HypTrap(s, hsr, a).halted && !s.halted
    ensures HypTrap(s, hsr, a).live.r == s.live.r && HypTrap(s, hsr, a).live.lrUsr == s.live.lrUsr
  {
    hide Inject, Pick, WithVmid, HsrClass, IsWfe;
  }

  // The state field says Invalid.
  method Empty(list: u32) returns (r: bool)
    ensures r == (ListRegisters.State(list) == LR_INVALID)
  {
    hide GetField;
    StateField(list);
    r := GetField(32, list, 29, 28) == 0;
  }

  // The updates that make a list register Pending.
  method Fill(w: u32, pid: nat, vid: nat) returns (list: u32)
    ensures list == LrWord(w, pid, vid)
  {
    hide SetBit, SetField, LrWord;
    CodeWordIs(w, pid, vid);
    var l := SetBit(32, w, 1, 1);
    l := SetField(32, l, 29, 28, 1);
    l := SetField(32, l, 19, 10, pid);
    list := SetField(32, l, 9, 0, vid);
  }

  ghost function GuestObjs(vm: seq<Guest>): set<object> {
    set g, o | g in vm && o in g.Objs() :: o
  }

  lemma PartsOf(hw: Hardware, vm: seq<Guest>)
    requires SystemParts(hw, vm)
    ensures |vm| > 0
    ensures var parts := GuestObjs(vm);
      hw.Objs() !! parts && forall i :: 0 <= i < |vm| ==> vm[i].Objs() <= parts
  {
  }

  lemma NotAPart(hw: Hardware, vm: seq<Guest>, s: System)
    ensures s !in hw.Objs() && s !in GuestObjs(vm)
  {
    forall g | g in vm && s in g.Objs()
      ensures false
    {
      g.Members(s);
    }
  }

  ghost predicate TablesApart(hw: Hardware, vm: seq<Guest>, pts: seq<PagetableLd>, alloc: MemoryAllocator) {
    && (forall i :: 0 <= i < |pts| ==> pts[i] as object !in hw.Objs())
    && alloc.Objs() !! hw.Objs()
    && (forall i :: 0 <= i < |vm| ==> alloc.Objs() !! vm[i].Objs())
  }

  // Tables are no parts of guests.
  lemma NoParts(hw: Hardware, vm: seq<Guest>, pts: seq<PagetableLd>, alloc: MemoryAllocator, s: System)
    requires TablesApart(hw, vm, pts, alloc)
    ensures var parts := GuestObjs(vm);
      && alloc.Objs() !! hw.Objs() && alloc.Objs() !! parts && s !in alloc.Objs()
      && forall i :: 0 <= i < |pts| ==>
           pts[i] as object !in hw.Objs() && pts[i] as object !in parts && pts[i] as object != s
  {
    forall g, i | g in vm && 0 <= i < |pts| && pts[i] as object in g.Objs()
      ensures false
    {
      g.Members(pts[i]);
    }
  }

  ghost predicate SystemParts(hw: Hardware, vm: seq<Guest>) {
    && 4 <= |vm| < 0x1_0000_0000
    && hw.Valid()
    && (forall i :: 0 <= i < |vm| ==> vm[i].Valid() && vm[i].id == i && hw.Objs() !! vm[i].Objs())
    && (forall i, j :: 0 <= i < j < |vm| ==> vm[i].Objs() !! vm[j].Objs())
  }
}
