// The vCPU machine: one set of registers, one bank of list registers, n guests with their
// backups, the round-robin scheduler and the trap handlers, as functions on state values.
// Module Hypervisor proves the C code against these functions; module Runs proves what holds
// over every run.
module Machine {
  import opened Options
  import opened BitOps
  import opened ListRegisters
  import opened VirtualDistributor

  // guest_rf without r_usr and lr_usr: the registers saved straight from the banks.
  datatype Banked = Banked(
    spUsr: u32, spSvc: u32, spAbt: u32, spUnd: u32, spIrq: u32, spFiq: u32,
    lrSvc: u32, lrAbt: u32, lrUnd: u32, lrIrq: u32, lrFiq: u32,
    spsrSvc: u32, spsrAbt: u32, spsrUnd: u32, spsrIrq: u32, spsrFiq: u32,
    elrHyp: u32, spsrHyp: u32)

  // The 32-bit registers of guest_cp15.
  datatype CpSet = CpSet(
    csselr: u32, sctlr: u32, ttbr0: u32, ttbr1: u32, ttbcr: u32, dacr: u32, dfsr: u32, ifsr: u32,
    dfar: u32, ifar: u32, prrr: u32, nmrr: u32, fcseidr: u32, contextidr: u32, tpidrUro: u32)

  // Everything a switch saves and restores: guest_backup without its dirty flag.
  datatype Ctx = Ctx(r: seq<u32>, lrUsr: u32, banked: Banked, cp: CpSet, vttbr: u64, ctlr: u32, list: seq<u32>)

  datatype Wfi = WfiIn | WfiOut | WfiPending

  // virq[v] is the physical interrupt mapped to virtual interrupt v, or -1.
  datatype Vm = Vm(valid: bool, realview: bool, wfi: Wfi, dirty: bool, bk: Ctx, virq: seq<int>)

  // live: the registers of the guest in the machine (r and lr are in the trap frame while a
  // handler runs).  halted: the program has left through printb or printbi.
  datatype Sys = Sys(live: Ctx, vm: seq<Vm>, cur: nat, idle: bool, halted: bool)

  const REGS: nat := 13

  predicate ShapedCtx(c: Ctx) {
    |c.r| == REGS && |c.list| == LISTS
  }

  // irq_handler routes interrupts to guests 0 to 3.
  predicate Shaped(s: Sys) {
    && |s.vm| >= 4
    && s.cur < |s.vm|
    && ShapedCtx(s.live)
    && (forall i :: 0 <= i < |s.vm| ==> ShapedCtx(s.vm[i].bk) && |s.vm[i].virq| == VIRQS)
  }

  // ---------------------------------------------------------------------------------------
  // guests/guest.c: suspend and restore.  Guest i has id i.
  // ---------------------------------------------------------------------------------------

  // VTTBR: table base in bits 39:0, VMID in bits 55:48.
  function Baddr(v: u64): nat {
    v % 0x100_0000_0000
  }

  function Vmid(v: u64): nat {
    v / 0x1_0000_0000_0000 % 0x100
  }

  function WithVmid(v: u64, id: nat): u64 {
    v / 0x100_0000_0000_0000 * 0x100_0000_0000_0000 + id % 0x100 * 0x1_0000_0000_0000 + v % 0x1_0000_0000_0000
  }

  // Writing the VMID field, on the value of the register.
  lemma VmidField(v: u64, id: nat)
    ensures SetField(64, v, 55, 48, id) == WithVmid(v, id)
  {
    hide SetField, Pow2;
    Powers();
    SetIs(64, v, 55, 48, id, 0x100_0000_0000_0000, 0x1_0000_0000_0000, 0x100);
  }

  // With no trap frame (sp == 0) r0..r12 and lr are neither saved nor restored.
  function Saved(live: Ctx, bk: Ctx, frame: bool): Ctx {
    if frame then live else live.(r := bk.r, lrUsr := bk.lrUsr)
  }

  function Suspend(s: Sys, i: nat, frame: bool): Sys
    requires i < |s.vm|
  {
    var g := s.vm[i];
    var bk := if g.dirty then Saved(s.live, g.bk, frame) else g.bk;
    s.(vm := s.vm[i := g.(bk := bk, dirty := false)])
  }

  function Restore(s: Sys, i: nat, frame: bool): Sys
    requires i < |s.vm|
  {
    var g := s.vm[i];
    if g.dirty then s.(halted := true)
    else
      var live := Saved(g.bk, s.live, frame);
      s.(live := live.(vttbr := WithVmid(live.vttbr, i)), vm := s.vm[i := g.(dirty := true)], cur := i)
  }

  // ---------------------------------------------------------------------------------------
  // vmm/scheduler.c
  // ---------------------------------------------------------------------------------------

  function Wrap(x: nat, n: nat): nat {
    if x < n then x else x - n
  }

  predicate Runnable(g: Vm) {
    g.valid && g.wfi != WfiIn
  }

  // The first runnable guest among cur + 1 + i, ..., cur + n in cyclic order.
  function Pick(vm: seq<Vm>, cur: nat, i: nat): Option<nat>
    requires cur < |vm| && i <= |vm|
    decreases |vm| - i
  {
    if i == |vm| then None
    else if Runnable(vm[Wrap(cur + 1 + i, |vm|)]) then Some(Wrap(cur + 1 + i, |vm|))
    else Pick(vm, cur, i + 1)
  }

  lemma {:induction false} PickIs(vm: seq<Vm>, cur: nat, i: nat)
    requires cur < |vm| && i <= |vm|
    ensures match Pick(vm, cur, i)
      case None => forall v :: 0 <= v < |vm| && i < Distance(|vm|, cur, v) ==> !Runnable(vm[v])
      case Some(j) =>
        && j < |vm| && Runnable(vm[j])
        && i < Distance(|vm|, cur, j)
        && forall v :: 0 <= v < |vm| && i < Distance(|vm|, cur, v) < Distance(|vm|, cur, j) ==> !Runnable(vm[v])
    decreases |vm| - i
  {
    if i < |vm| && !Runnable(vm[Wrap(cur + 1 + i, |vm|)]) {
      PickIs(vm, cur, i + 1);
      assert forall v :: 0 <= v < |vm| && Distance(|vm|, cur, v) == i + 1 ==> v == Wrap(cur + 1 + i, |vm|);
    }
  }

  // Steps from cur to j in cyclic order: 1 to n, n for cur itself.
  function Distance(n: nat, cur: nat, j: nat): nat
    requires cur < n && j < n
  {
    if j > cur then j - cur else j + n - cur
  }

  lemma PickNearest(vm: seq<Vm>, cur: nat, v: nat)
    requires cur < |vm| && v < |vm| && Runnable(vm[v])
    ensures Pick(vm, cur, 0).Some?
    ensures Pick(vm, cur, 0).value < |vm|
    ensures Distance(|vm|, cur, Pick(vm, cur, 0).value) <= Distance(|vm|, cur, v)
  {
    PickIs(vm, cur, 0);
  }

  function Wake(g: Vm): Vm {
    if g.wfi == WfiPending then g.(wfi := WfiOut) else g
  }

  function Schedule(s: Sys): Sys
    requires s.cur < |s.vm|
  {
    PickIs(s.vm, s.cur, 0);
    match Pick(s.vm, s.cur, 0)
    case None => Suspend(s, s.cur, true).(idle := true)
    case Some(j) => SwitchTo(s, j)
  }

  // Leave WFI if an interrupt is pending, save the current guest, load guest j.
  function SwitchTo(s: Sys, j: nat): Sys
    requires s.cur < |s.vm| && j < |s.vm|
  {
    var s1 := s.(vm := s.vm[j := Wake(s.vm[j])]);
    var s2 := Restore(Suspend(s1, s.cur, true), j, true);
    if s2.halted then s2 else s2.(idle := false)
  }

  // ---------------------------------------------------------------------------------------
  // vmm/exception_handler.c
  // ---------------------------------------------------------------------------------------

  function Route(pid: nat): Option<nat> {
    if pid == 40 || pid == 44 || pid == 48 then Some(0)
    else if pid == 41 || pid == 45 || pid == 49 then Some(1)
    else if pid == 42 || pid == 46 || pid == 50 then Some(2)
    else if pid == 43 || pid == 47 || pid == 51 then Some(3)
    else None
  }

  // irq_handler routes an interrupt to guest t exactly when main has mapped it for guest t:
  // 40 + t is the guest's UART, 44 + t and 48 + t its timers.
  lemma RoutingMatchesMapping(pid: nat, t: nat)
    requires t < 4
    ensures Route(pid) == Some(t) <==> IrqToVirq(Pids(GuestVirqs(t)), pid, 0).Some?
    ensures Route(pid) == Some(t) <==> 40 <= pid < 52 && pid % 4 == t
    ensures IrqToVirq(Pids(GuestVirqs(t)), 40 + t, 0) == Some(44)
    ensures IrqToVirq(Pids(GuestVirqs(t)), 44 + t, 0) == Some(36)
    ensures IrqToVirq(Pids(GuestVirqs(t)), 48 + t, 0) == Some(37)
  {
    var pids := Pids(GuestVirqs(t));
    IrqToVirqIs(pids, pid, 0);
    IrqToVirqIs(pids, 40 + t, 0);
    IrqToVirqIs(pids, 44 + t, 0);
    IrqToVirqIs(pids, 48 + t, 0);
    assert pids[44] == 40 + t && pids[36] == 44 + t && pids[37] == 48 + t;
    assert t == 0 || t == 1 || t == 2 || t == 3;
  }

  predicate Active(g: Vm) {
    g.dirty && g.wfi != WfiIn
  }

  // The list registers of a guest, wherever they are.
  function Lists(s: Sys, t: nat): seq<u32>
    requires t < |s.vm|
  {
    if Active(s.vm[t]) then s.live.list else s.vm[t].bk.list
  }

  function WithLists(s: Sys, t: nat, list: seq<u32>): Sys
    requires t < |s.vm|
  {
    if Active(s.vm[t]) then s.(live := s.live.(list := list))
    else s.(vm := s.vm[t := s.vm[t].(bk := s.vm[t].bk.(list := list))])
  }

  function Halt(s: Sys): Sys {
    s.(halted := true)
  }

  function DeviceIrq(s: Sys, t: nat, pid: nat): Sys
    requires t < |s.vm| && s.cur < |s.vm|
  {
    var vid := IrqToVirq(s.vm[t].virq, pid, 0);
    if !s.vm[t].realview || vid == None then Halt(s)
    else match Inject(Lists(s, t), pid, vid.value)
    case None => Halt(s)
    case Some(list) =>
      var s2 := MarkPending(WithLists(s, t, list), t);
      if s2.idle then Schedule(s2) else s2
  }

  function MarkPending(s: Sys, t: nat): Sys
    requires t < |s.vm|
  {
    if s.vm[t].wfi == WfiIn then s.(vm := s.vm[t := s.vm[t].(wfi := WfiPending)]) else s
  }

  function Irq(s: Sys, pid: nat): Sys
    requires s.cur < |s.vm| && |s.vm| >= 4
  {
    if pid == 34 then Schedule(s)
    else if pid == 1023 then s
    else match Route(pid)
    case None => Halt(s)
    case Some(t) => DeviceIrq(s, t, pid)
  }

  // How the data-abort handler answers: redo the instruction after mapping a page, carry out a
  // device access for register rt, or give up.
  datatype Answer = Redo | Access(rt: nat, isLoad: bool, value: u32) | GiveUp

  function Add32(x: u32, k: int): u32 {
    (x + k) % 0x1_0000_0000
  }

  lemma AddBack(x: u32)
    ensures Add32(Add32(x, 4), -4) == x
  {
    if x + 4 < 0x1_0000_0000 {
      DivUnique(x + 4, 0x1_0000_0000, 0, x + 4);
      DivUnique(x, 0x1_0000_0000, 0, x);
    } else {
      DivUnique(x + 4, 0x1_0000_0000, 1, x + 4 - 0x1_0000_0000);
      DivUnique(x - 0x1_0000_0000, 0x1_0000_0000, -1, x);
    }
  }

  function Advance(c: Ctx, k: int): Ctx {
    c.(banked := c.banked.(elrHyp := Add32(c.banked.elrHyp, k)))
  }

  // write_reg_to_stack
  function PutReg(c: Ctx, rt: nat, value: u32): Option<Ctx>
    requires |c.r| == REGS
  {
    if rt <= 12 then Some(c.(r := c.r[rt := value]))
    else if rt == 14 then Some(c.(lrUsr := value))
    else None
  }

  function DataAbort(s: Sys, a: Answer): Sys
    requires |s.live.r| == REGS
  {
    match a
    case Redo => s.(live := Advance(s.live, -4))
    case GiveUp => Halt(s)
    case Access(rt, isLoad, value) =>
      match PutReg(s.live, rt, value)
      case None => Halt(s)
      case Some(c) => if isLoad then s.(live := c) else s
  }

  // HSR: exception class in bits 31:26, bit 0 tells WFE from WFI.
  function HsrClass(hsr: u32): nat {
    hsr / 0x400_0000
  }

  predicate IsWfe(hsr: u32) {
    hsr % 2 == 1
  }

  // The fields hyp_trap_handler extracts.
  lemma HsrFields(hsr: u32)
    ensures GetField(32, hsr, 31, 26) == HsrClass(hsr)
    ensures GetBit(32, GetField(32, hsr, 24, 0), 0) == 0 <==> !IsWfe(hsr)
  {
    hide GetField, GetBit, Pow2;
    Powers();
    GetIs(32, hsr, 31, 26, 0x400_0000, 0x40);
    DivUnique(hsr / 0x400_0000, 0x40, 0, hsr / 0x400_0000);
    GetBitIs(32, GetField(32, hsr, 24, 0), 0);
    GetFieldBit(32, hsr, 24, 0, 0);
  }

  function WaitForInterrupt(s: Sys): Sys
    requires s.cur < |s.vm|
  {
    Schedule(s.(vm := s.vm[s.cur := s.vm[s.cur].(wfi := WfiIn)]))
  }

  // Traps other than data aborts, after ELR has been moved on.
  function OtherTrap(s: Sys, ec: nat, wfe: bool): Sys
    requires s.cur < |s.vm|
  {
    if ec == 0x01 then (if wfe then Halt(s) else WaitForInterrupt(s))
    else if ec == 0x03 || ec == 0x04 || ec == 0x05 then s
    else if ec == 0x12 then s.(live := Advance(s.live, -4))
    else Halt(s)
  }

  function TrapOfClass(s: Sys, ec: nat, wfe: bool, a: Answer): Sys
    requires Shaped(s)
  {
    if !s.vm[s.cur].realview then Halt(s)
    else if ec == 0x24 then DataAbort(s, a)
    else OtherTrap(s, ec, wfe)
  }

  function HypTrap(s: Sys, hsr: u32, a: Answer): Sys
    requires Shaped(s)
  {
    TrapOfClass(s.(live := Advance(s.live, 4)), HsrClass(hsr), IsWfe(hsr), a)
  }

  // ---------------------------------------------------------------------------------------
  // Steps of the machine
  // ---------------------------------------------------------------------------------------

  // Guest: the running guest executes and leaves its registers in any state; the VTTBR is not
  // its to change.  Idle: the idle thread runs; an interrupt finds its registers in the frame.
  datatype Step =
    | Interrupt(pid: nat)
    | Trap(hsr: u32, answer: Answer)
    | Guest(regs: Ctx)
    | IdleLoop(r: seq<u32>, lr: u32, elr: u32, spsr: u32)

  predicate Enabled(s: Sys, e: Step) {
    && !s.halted
    && (e.Trap? ==> !s.idle)
    && (e.Guest? ==> !s.idle && ShapedCtx(e.regs))
    && (e.IdleLoop? ==> s.idle && |e.r| == REGS)
  }

  function Next(s: Sys, e: Step): Sys
    requires Shaped(s) && Enabled(s, e)
  {
    match e
    case Interrupt(pid) => Irq(s, pid)
    case Trap(hsr, a) => HypTrap(s, hsr, a)
    case Guest(c) => s.(live := c.(vttbr := s.live.vttbr))
    case IdleLoop(r, lr, elr, spsr) =>
      s.(live := s.live.(r := r, lrUsr := lr, banked := s.live.banked.(elrHyp := elr, spsrHyp := spsr)))
  }

  // ---------------------------------------------------------------------------------------
  // Where the machine starts (vmm/main.c)
  // ---------------------------------------------------------------------------------------

  // The context guest i is entered with: r0 to r12 and the banked registers zero but for the entry
  // point and the mode, the coprocessor registers zero but for SCTLR, an empty virtual interrupt
  // controller, and VTTBR at the guest's own tables.
  ghost predicate StartsAs(c: Ctx, i: nat) {
    && c.vttbr % 0x100_0000_0000 == 0x0800_0000 + 0x10_0000 * i
    && |c.r| == 13 && (forall k :: 0 <= k < 13 ==> c.r[k] == 0)
    && c.banked == Banked(0, 0, 0, 0, 0, 0, 0, 0, 0, 0, 0, 0, 0, 0, 0, 0, 0x7000_0000, 0x4000_01D3)
    && c.cp == CpSet(0, 0x00C5_0078, 0, 0, 0, 0, 0, 0, 0, 0, 0, 0, 0, 0, 0)
    && c.ctlr == 0 && |c.list| == 64 && (forall k :: 0 <= k < 64 ==> c.list[k] == 0)
  }

  // That context is in the registers for guest 0, in the backup for the others.
  function EntryContext(s: Sys, i: nat): Ctx
    requires i < |s.vm|
  {
    if i == 0 then s.live else s.vm[i].bk
  }

  // The state in which main leaves hyp mode: guest 0 runs, with VMID 0, and every guest has its
  // context and its interrupts.
  ghost predicate AtEntry(s: Sys) {
    && |s.vm| == 4 && s.cur == 0 && !s.idle && s.live.vttbr / 0x1_0000_0000_0000 % 0x100 == 0
    && (forall i :: 0 <= i < 4 ==> StartsAs(EntryContext(s, i), i) && StartsWith(s.vm[i], i))
  }

  // Guest i is valid and runnable, and live if it is guest 0; its virtual interrupts 44, 36 and 37
  // are mapped.
  ghost predicate StartsWith(g: Vm, i: nat) {
    && g.valid && g.realview && g.wfi == WfiOut && g.dirty == (i == 0) && |g.virq| == 64
    && (forall v :: 0 <= v < 64 ==>
          g.virq[v] == if v == 44 then 40 + i else if v == 36 then 44 + i else if v == 37 then 48 + i else -1)
  }
}
