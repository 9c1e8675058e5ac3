// What holds over every run of the machine: private contexts, one live guest, bounded waiting,
// no lost wake-up, and the table base in VTTBR.
module Runs {
  import opened Options
  import opened BitOps
  import opened ListRegisters
  import opened VirtualDistributor
  import opened Machine

  // ---------------------------------------------------------------------------------------
  // Logical contexts
  // ---------------------------------------------------------------------------------------

  // The context of guest i: the live registers while its backup is dirty, the backup otherwise.
  function Raw(s: Sys, i: nat): Ctx
    requires i < |s.vm|
  {
    if s.vm[i].dirty then s.live else s.vm[i].bk
  }

  // The saved VTTBR has no VMID before the first restore; the VMID of guest i is always i.
  function Tagged(c: Ctx, i: nat): Ctx {
    c.(vttbr := WithVmid(c.vttbr, i))
  }

  function Logical(s: Sys, i: nat): Ctx
    requires i < |s.vm|
  {
    Tagged(Raw(s, i), i)
  }

  lemma TagTwice(v: u64, i: nat)
    ensures WithVmid(WithVmid(v, i), i) == WithVmid(v, i)
    ensures Baddr(WithVmid(v, i)) == Baddr(v)
    ensures Vmid(WithVmid(v, i)) == i % 0x100
  {
    var h, l, k := v / 0x100_0000_0000_0000, v % 0x1_0000_0000_0000, i % 0x100;
    var w := WithVmid(v, i);
    DivUnique(w, 0x100_0000_0000_0000, h, k * 0x1_0000_0000_0000 + l);
    DivUnique(w, 0x1_0000_0000_0000, h * 0x100 + k, l);
    DivUnique(h * 0x100 + k, 0x100, h, k);
    DivUnique(v, 0x100_0000_0000, v / 0x1_0000_0000_0000 * 0x100 + l / 0x100_0000_0000, l % 0x100_0000_0000);
    DivUnique(w, 0x100_0000_0000, (h * 0x100 + k) * 0x100 + l / 0x100_0000_0000, l % 0x100_0000_0000);
  }

  // ---------------------------------------------------------------------------------------
  // The scheduler
  // ---------------------------------------------------------------------------------------

  // At most the current guest is live.
  ghost predicate OnlyCurrentDirty(s: Sys) {
    forall i :: 0 <= i < |s.vm| && s.vm[i].dirty ==> i == s.cur
  }

  ghost predicate NoneDirty(s: Sys) {
    forall i :: 0 <= i < |s.vm| ==> !s.vm[i].dirty
  }

  lemma SwitchOutcome(s: Sys, j: nat)
    requires Shaped(s) && OnlyCurrentDirty(s) && !s.halted && j < |s.vm|
    ensures var s' := SwitchTo(s, j);
      && !s'.halted && !s'.idle && s'.cur == j && |s'.vm| == |s.vm|
      && s'.live == Tagged(Raw(s, j), j)
  {
  }

  lemma SwitchGuest(s: Sys, j: nat, i: nat)
    requires Shaped(s) && OnlyCurrentDirty(s) && !s.halted && j < |s.vm| && i < |s.vm|
    ensures |SwitchTo(s, j).vm| == |s.vm|
    ensures var g, g' := s.vm[i], SwitchTo(s, j).vm[i];
      && g'.dirty == (i == j)
      && g'.wfi == (if i == j then Wake(g).wfi else g.wfi)
      && g'.valid == g.valid && g'.realview == g.realview && g'.virq == g.virq
      && g'.bk == Raw(s, i)
  {
    hide WithVmid;
  }

  // One call of scheduler_rr: it never reaches the "restore dirty backup" exit; afterwards the
  // nearest runnable guest is current and alone live, or the machine is idle with nobody live
  // and nobody runnable; and no guest's context, validity or interrupt map has changed.
  lemma ScheduleOutcome(s: Sys)
    requires Shaped(s) && OnlyCurrentDirty(s) && !s.halted
    ensures var s' := Schedule(s);
      && Shaped(s') && !s'.halted && |s'.vm| == |s.vm|
      && (forall i :: 0 <= i < |s.vm| ==>
            && Logical(s', i) == Logical(s, i)
            && s'.vm[i].valid == s.vm[i].valid && s'.vm[i].realview == s.vm[i].realview
            && s'.vm[i].virq == s.vm[i].virq)
      && match Pick(s.vm, s.cur, 0)
         case None =>
           && s'.idle && s'.cur == s.cur && NoneDirty(s')
           && (forall i :: 0 <= i < |s.vm| ==> s'.vm[i].wfi == s.vm[i].wfi && !Runnable(s.vm[i]))
         case Some(j) =>
           && !s'.idle && s'.cur == j < |s.vm| && s'.vm[j].dirty && OnlyCurrentDirty(s')
           && s'.vm[j].valid && s'.vm[j].wfi == WfiOut
           && s'.live.vttbr == WithVmid(Raw(s, j).vttbr, j)
           && (forall i :: 0 <= i < |s.vm| && i != j ==> s'.vm[i].wfi == s.vm[i].wfi)
  {
    hide WithVmid, Pick, Wrap;
    PickIs(s.vm, s.cur, 0);
    match Pick(s.vm, s.cur, 0)
    case None =>
      forall i | 0 <= i < |s.vm|
        ensures !Runnable(s.vm[i])
      {
        assert 0 < Distance(|s.vm|, s.cur, i);
      }
    case Some(j) =>
      hide SwitchTo;
      SwitchOutcome(s, j);
      TagTwice(Raw(s, j).vttbr, j);
      forall i | 0 <= i < |s.vm|
        ensures Logical(Schedule(s), i) == Logical(s, i)
      {
        SwitchGuest(s, j, i);
      }
      SwitchFlags(s, j);
  }

  // Guest v comes after cur and before j in cyclic order.
  predicate Between(cur: nat, v: nat, j: nat) {
    cur < v < j || v < j <= cur || j <= cur < v
  }

  // t is s with the processor handed on: to the first guest after the current one, in cyclic
  // order and the current one last, that is valid and not in WFI; to the idle thread if there is
  // none.  The guest that runs has its own context in the registers, nobody's context changes.
  ghost predicate HandsOn(s: Sys, t: Sys) {
    && |t.vm| == |s.vm| && t.cur < |s.vm| && !t.halted
    && (forall i :: 0 <= i < |s.vm| ==> Logical(t, i) == Logical(s, i))
    && (t.idle ==> forall v :: 0 <= v < |s.vm| ==> !t.vm[v].dirty && !(s.vm[v].valid && s.vm[v].wfi != WfiIn))
    && (!t.idle ==>
          && s.vm[t.cur].valid && s.vm[t.cur].wfi != WfiIn && t.vm[t.cur].wfi == WfiOut
          && t.live == Logical(s, t.cur)
          && (forall v :: 0 <= v < |s.vm| && Between(s.cur, v, t.cur) ==> !(s.vm[v].valid && s.vm[v].wfi != WfiIn)))
  }

  lemma ScheduleHandsOn(s: Sys)
    requires Shaped(s) && OnlyCurrentDirty(s) && !s.halted
    ensures HandsOn(s, Schedule(s))
  {
    hide WithVmid, Pick, Schedule, Wrap;
    ScheduleOutcome(s);
    PickIs(s.vm, s.cur, 0);
    var t := Schedule(s);
    if !t.idle {
      SwitchOutcome(s, t.cur);
      SchedulePicks(s);
    }
  }

  lemma SchedulePicks(s: Sys)
    requires s.cur < |s.vm| && Pick(s.vm, s.cur, 0).Some?
    ensures Pick(s.vm, s.cur, 0).value < |s.vm|
    ensures Schedule(s) == SwitchTo(s, Pick(s.vm, s.cur, 0).value)
  {
    hide Pick, SwitchTo;
    PickIs(s.vm, s.cur, 0);
  }

  lemma SwitchFlags(s: Sys, j: nat)
    requires Shaped(s) && OnlyCurrentDirty(s) && !s.halted && j < |s.vm| && Runnable(s.vm[j])
    ensures var s' := SwitchTo(s, j);
      && Shaped(s') && |s'.vm| == |s.vm| && s'.cur == j && s'.vm[j].dirty && OnlyCurrentDirty(s')
      && s'.vm[j].valid && s'.vm[j].wfi == WfiOut
      && (forall i :: 0 <= i < |s.vm| ==>
            && (i != j ==> s'.vm[i].wfi == s.vm[i].wfi)
            && s'.vm[i].valid == s.vm[i].valid && s'.vm[i].realview == s.vm[i].realview
            && s'.vm[i].virq == s.vm[i].virq)
  {
    hide SwitchTo;
    SwitchOutcome(s, j);
    forall i | 0 <= i < |s.vm|
      ensures var g, g' := s.vm[i], SwitchTo(s, j).vm[i];
        && g'.dirty == (i == j)
        && g'.wfi == (if i == j then Wake(g).wfi else g.wfi)
        && g'.valid == g.valid && g'.realview == g.realview && g'.virq == g.virq
        && g'.bk == Raw(s, i)
    {
      SwitchGuest(s, j, i);
    }
  }

  // ---------------------------------------------------------------------------------------
  // The invariant
  // ---------------------------------------------------------------------------------------

  // When not idle exactly the current guest is live, and it is not waiting; when idle nobody
  // is live and every valid guest waits.
  ghost predicate OneLive(s: Sys)
    requires s.cur < |s.vm|
  {
    if s.idle then
      NoneDirty(s) && forall i :: 0 <= i < |s.vm| && s.vm[i].valid ==> s.vm[i].wfi == WfiIn
    else
      OnlyCurrentDirty(s) && s.vm[s.cur].dirty && s.vm[s.cur].valid && s.vm[s.cur].wfi == WfiOut
  }

  // A guest that is to be woken has something to wake up for.
  ghost predicate Wakeable(s: Sys) {
    forall i :: 0 <= i < |s.vm| && s.vm[i].wfi == WfiPending ==> HasPending(Logical(s, i).list)
  }

  // Every guest's VTTBR holds its own table base in bits 39:0, and the live one carries the
  // current guest's VMID in bits 55:48.
  ghost predicate OwnTables(s: Sys, bases: seq<nat>) {
    && |bases| == |s.vm|
    && (forall i :: 0 <= i < |s.vm| ==> Baddr(Logical(s, i).vttbr) == bases[i])
    && (!s.idle ==> s.live.vttbr == WithVmid(s.live.vttbr, s.cur))
  }

  ghost predicate Inv(s: Sys, bases: seq<nat>)
  {
    Shaped(s) && s.cur < |s.vm| && OneLive(s) && Wakeable(s) && OwnTables(s, bases)
  }

  // ---------------------------------------------------------------------------------------
  // The machine with private contexts
  // ---------------------------------------------------------------------------------------

  // What can happen to one guest's private context.
  datatype Op =
    | Exec(regs: Ctx)
    | Skip
    | LoadReg(rt: nat, value: u32)
    | Deliver(pid: nat, vid: nat)

  datatype Act = Nothing | On(vm: nat, op: Op)

  function Effect(c: Ctx, op: Op): Ctx
    requires ShapedCtx(c)
  {
    match op
    case Exec(regs) => if ShapedCtx(regs) then regs.(vttbr := c.vttbr) else c
    case Skip => Advance(c, 4)
    case LoadReg(rt, value) => (match PutReg(Advance(c, 4), rt, value) case None => c case Some(d) => d)
    case Deliver(pid, vid) => (match Inject(c.list, pid, vid) case None => c case Some(l) => c.(list := l))
  }

  lemma EffectShaped(c: Ctx, op: Op)
    requires ShapedCtx(c)
    ensures ShapedCtx(Effect(c, op))
  {
    hide State, LrWord, FirstInvalid;
    if op.Deliver? {
      FirstInvalidIs(c.list, 0);
    }
  }

  // The action a step of the machine performs on private contexts.  It depends on the current
  // guest and on the interrupt maps, never on registers other than HSR.
  function Action(s: Sys, e: Step): Act
    requires Shaped(s) && Enabled(s, e)
  {
    match e
    case Interrupt(pid) =>
      (match Route(pid)
       case None => Nothing
       case Some(t) =>
         match IrqToVirq(s.vm[t].virq, pid, 0)
         case None => Nothing
         case Some(vid) => On(t, Deliver(pid, vid)))
    case Trap(hsr, a) =>
      var ec := HsrClass(hsr);
      if ec == 0x12 || (ec == 0x24 && a == Redo) then Nothing
      else if ec == 0x24 && a.Access? && a.isLoad then On(s.cur, LoadReg(a.rt, a.value))
      else On(s.cur, Skip)
    case Guest(c) => On(s.cur, Exec(c))
    case IdleLoop(_, _, _, _) => Nothing
  }

  // The private context of guest i after the action.
  function After(c: Ctx, i: nat, a: Act): Ctx
    requires ShapedCtx(c)
  {
    if a.On? && a.vm == i then Effect(c, a.op) else c
  }

  lemma AdvanceBack(c: Ctx)
    ensures Advance(Advance(c, 4), -4) == c
  {
    AddBack(c.banked.elrHyp);
  }

  // A state in which the scheduler is about to be called, or a handler is about to return.
  ghost predicate Settling(s: Sys, bases: seq<nat>) {
    && Shaped(s) && !s.halted && OnlyCurrentDirty(s) && Wakeable(s)
    && |bases| == |s.vm|
    && (forall i :: 0 <= i < |s.vm| ==> Baddr(Logical(s, i).vttbr) == bases[i])
  }

  lemma ScheduleKeepsInv(s: Sys, bases: seq<nat>)
    requires Settling(s, bases)
    ensures Inv(Schedule(s), bases) && !Schedule(s).halted
    ensures forall i :: 0 <= i < |s.vm| ==> Logical(Schedule(s), i) == Logical(s, i)
  {
    hide Baddr, Vmid, WithVmid, Schedule, State;
    ScheduleOutcome(s);
    match Pick(s.vm, s.cur, 0)
    case None =>
    case Some(j) => TagTwice(Raw(s, j).vttbr, j);
  }

  // ---------------------------------------------------------------------------------------
  // One step
  // ---------------------------------------------------------------------------------------

  // The step keeps the invariant and does to the private contexts exactly its action.
  ghost predicate Simulates(s: Sys, e: Step, s': Sys, bases: seq<nat>)
    requires Shaped(s) && Enabled(s, e)
  {
    && Inv(s', bases) && |s'.vm| == |s.vm|
    && (forall i :: 0 <= i < |s.vm| ==> Logical(s', i) == After(Logical(s, i), i, Action(s, e)))
  }

  lemma GuestStep(s: Sys, e: Step, bases: seq<nat>)
    requires Inv(s, bases) && Enabled(s, e) && (e.Guest? || e.IdleLoop?)
    ensures Simulates(s, e, Next(s, e), bases)
  {
    hide Baddr, Vmid, WithVmid, State;
    if e.Guest? {
      TagTwice(s.live.vttbr, s.cur);
    }
  }

  // The action, and nothing else, happened to the private contexts.
  ghost predicate Acts(s: Sys, s': Sys, a: Act) {
    && |s'.vm| == |s.vm|
    && forall i :: 0 <= i < |s.vm| ==> ShapedCtx(Logical(s, i)) && Logical(s', i) == After(Logical(s, i), i, a)
  }

  // Delivering an interrupt, before the scheduler runs.
  lemma DeliverStep(s: Sys, t: nat, pid: nat, vid: nat, list: seq<u32>, bases: seq<nat>)
    requires Inv(s, bases) && !s.halted && t < |s.vm| && Inject(Lists(s, t), pid, vid) == Some(list)
    ensures var s2 := MarkPending(WithLists(s, t, list), t);
      && Settling(s2, bases) && |s2.vm| == |s.vm| && s2.idle == s.idle
      && Acts(s, s2, On(t, Deliver(pid, vid)))
      && (!s.idle ==> Inv(s2, bases))
  {
    hide Baddr, Vmid, WithVmid, State, Inject, HasPending;
    InjectKeepsPending(Lists(s, t), pid, vid);
    assert Lists(s, t) == Raw(s, t).list;
  }

  lemma InterruptStep(s: Sys, pid: nat, bases: seq<nat>)
    requires Inv(s, bases) && !s.halted && !Irq(s, pid).halted
    ensures Simulates(s, Interrupt(pid), Irq(s, pid), bases)
  {
    hide Baddr, Vmid, WithVmid, State, Inject, Schedule, Inv, HasPending, DeviceIrq, IrqToVirq, Effect;
    InvParts(s, bases);
    if pid == 34 {
      ScheduleKeepsInv(s, bases);
      ScheduleOutcome(s);
    } else if pid != 1023 && Route(pid).Some? {
      DeviceStep(s, Route(pid).value, pid, bases);
    }
  }

  lemma DeviceStep(s: Sys, t: nat, pid: nat, bases: seq<nat>)
    requires Inv(s, bases) && Shaped(s) && !s.halted && t < |s.vm| && !DeviceIrq(s, t, pid).halted
    ensures var vid := IrqToVirq(s.vm[t].virq, pid, 0);
      && vid.Some? && Inv(DeviceIrq(s, t, pid), bases) && Acts(s, DeviceIrq(s, t, pid), On(t, Deliver(pid, vid.value)))
  {
    hide Baddr, Vmid, WithVmid, State, Inject, Schedule, Inv, HasPending, IrqToVirq, Effect, Lists,
      MarkPending, Settling, Logical;
    var vid := IrqToVirq(s.vm[t].virq, pid, 0).value;
    var list := Inject(Lists(s, t), pid, vid).value;
    DeliverStep(s, t, pid, vid, list, bases);
    var s2 := MarkPending(WithLists(s, t, list), t);
    if s2.idle {
      ScheduleKeepsInv(s2, bases);
      SettlingShape(s2, bases);
      ScheduleOutcome(s2);
    }
  }

  lemma SettlingShape(s: Sys, bases: seq<nat>)
    requires Settling(s, bases)
    ensures Shaped(s) && !s.halted && OnlyCurrentDirty(s)
  {
  }

  lemma InvParts(s: Sys, bases: seq<nat>)
    requires Inv(s, bases)
    ensures Shaped(s) && OneLive(s) && Wakeable(s) && OwnTables(s, bases)
    ensures !s.halted ==> Settling(s, bases)
    ensures !s.idle ==> Logical(s, s.cur) == s.live
  {
  }

  // Moving the live context of the running guest.
  lemma MoveLive(s: Sys, c: Ctx, bases: seq<nat>)
    requires Inv(s, bases) && !s.halted && !s.idle
    requires ShapedCtx(c) && c.vttbr == s.live.vttbr && c.list == s.live.list
    ensures var s' := s.(live := c);
      && Inv(s', bases)
      && (forall i :: 0 <= i < |s.vm| ==> Logical(s', i) == if i == s.cur then c else Logical(s, i))
  {
    hide Baddr, Vmid, WithVmid, State, HasPending;
  }

  lemma WaitStep(s: Sys, bases: seq<nat>)
    requires Inv(s, bases) && !s.halted && !s.idle
    ensures var s' := WaitForInterrupt(s);
      && Inv(s', bases) && !s'.halted && |s'.vm| == |s.vm|
      && (forall i :: 0 <= i < |s.vm| ==> Logical(s', i) == Logical(s, i))
  {
    hide Baddr, Vmid, WithVmid, State, Schedule, HasPending;
    var s1 := s.(vm := s.vm[s.cur := s.vm[s.cur].(wfi := WfiIn)]);
    assert forall i :: 0 <= i < |s.vm| ==> Logical(s1, i) == Logical(s, i);
    ScheduleKeepsInv(s1, bases);
    ScheduleOutcome(s1);
  }

  lemma TrapStep(s: Sys, hsr: u32, a: Answer, bases: seq<nat>)
    requires Inv(s, bases) && Enabled(s, Trap(hsr, a)) && !HypTrap(s, hsr, a).halted
    ensures Simulates(s, Trap(hsr, a), HypTrap(s, hsr, a), bases)
  {
    hide Baddr, Vmid, IsWfe, WithVmid, State, Schedule, Inv, WaitForInterrupt, HsrClass;
    InvParts(s, bases);
    var c4 := Advance(s.live, 4);
    var s0 := s.(live := c4);
    MoveLive(s, c4, bases);
    AdvanceBack(s.live);
    var ec := HsrClass(hsr);
    if ec == 0x01 {
      WaitStep(s0, bases);
    } else if ec == 0x24 && a.Access? && a.isLoad {
      MoveLive(s, PutReg(c4, a.rt, a.value).value, bases);
    }
  }

  // Every step that does not leave the program keeps the invariant and performs its action on
  // the private contexts, nothing else.
  lemma StepSimulates(s: Sys, e: Step, bases: seq<nat>)
    requires Inv(s, bases) && Enabled(s, e) && !Next(s, e).halted
    ensures Simulates(s, e, Next(s, e), bases)
  {
    match e
    case Interrupt(pid) => InterruptStep(s, pid, bases);
    case Trap(hsr, a) => TrapStep(s, hsr, a, bases);
    case Guest(c) => GuestStep(s, e, bases);
    case IdleLoop(_, _, _, _) => GuestStep(s, e, bases);
  }

  // ---------------------------------------------------------------------------------------
  // Leaving the program
  // ---------------------------------------------------------------------------------------

  // An interrupt nobody asked for or that finds every list register of its guest in use, and
  // traps the handlers do not know.
  ghost predicate Leaves(s: Sys, e: Step)
    requires Shaped(s)
  {
    match e
    case Interrupt(pid) =>
      pid != 34 && pid != 1023 && (!(40 <= pid < 52) || Undeliverable(s, pid % 4, pid))
    case Trap(hsr, a) => !s.vm[s.cur].realview || UnknownTrap(hsr / 0x400_0000, hsr % 2 == 1, a)
    case Guest(_) => false
    case IdleLoop(_, _, _, _) => false
  }

  // Guest t has not mapped the interrupt, or bits 29:28 of none of its list registers say Invalid.
  ghost predicate Undeliverable(s: Sys, t: nat, pid: nat)
    requires t < |s.vm|
  {
    || !s.vm[t].realview || (forall v :: 0 <= v < |s.vm[t].virq| ==> s.vm[t].virq[v] != pid)
    || forall k :: 0 <= k < |Logical(s, t).list| ==> Logical(s, t).list[k] / 0x1000_0000 % 4 != 0
  }

  // WFE, an exception class without a handler, an access to no device, or one whose register
  // is not in the trap frame.
  predicate UnknownTrap(ec: nat, wfe: bool, a: Answer) {
    || (ec == 0x01 && wfe)
    || (ec != 0x01 && ec != 0x03 && ec != 0x04 && ec != 0x05 && ec != 0x12 && ec != 0x24)
    || (ec == 0x24 && (a == GiveUp || (a.Access? && (a.rt == 13 || a.rt > 14))))
  }

  // These are the only exits: in particular "restore dirty backup" is never one.
  lemma LeavesExactly(s: Sys, e: Step, bases: seq<nat>)
    requires Inv(s, bases) && Enabled(s, e)
    ensures Next(s, e).halted <==> Leaves(s, e)
  {
    hide Baddr, Vmid, IsWfe, WithVmid, State, Schedule, Inv, WaitForInterrupt, HsrClass, Inject, Wakeable, HasPending;
    InvParts(s, bases);
    match e
    case Interrupt(pid) => InterruptLeaves(s, pid, bases);
    case Trap(hsr, a) =>
      HsrParts(hsr);
      if HsrClass(hsr) == 0x01 {
        MoveLive(s, Advance(s.live, 4), bases);
        WaitStep(s.(live := Advance(s.live, 4)), bases);
      }
    case Guest(_) =>
    case IdleLoop(_, _, _, _) =>
  }

  lemma HsrParts(hsr: u32)
    ensures HsrClass(hsr) == hsr / 0x400_0000
    ensures IsWfe(hsr) <==> hsr % 2 == 1
  {
  }

  lemma RouteOf(pid: nat)
    ensures Route(pid) == if 40 <= pid < 52 then Some(pid % 4) else None
  {
  }

  lemma InterruptLeaves(s: Sys, pid: nat, bases: seq<nat>)
    requires Inv(s, bases) && !s.halted
    ensures Irq(s, pid).halted <==> Leaves(s, Interrupt(pid))
  {
    hide Baddr, Vmid, WithVmid, State, Inject, Schedule, Inv, HasPending, Logical, IrqToVirq, Occupied, LrWord,
      Acts, Settling, Lists, FirstInvalid;
    InvParts(s, bases);
    ScheduleKeepsInv(s, bases);
    RouteOf(pid);
    if pid != 34 && pid != 1023 && Route(pid).Some? {
      var t := Route(pid).value;
      var vid := IrqToVirq(s.vm[t].virq, pid, 0);
      ListsAreLogical(s, bases, t);
      IrqToVirqIs(s.vm[t].virq, pid, 0);
      if vid.Some? {
        InjectSpec(Lists(s, t), pid, vid.value);
        if Inject(Lists(s, t), pid, vid.value).Some? {
          var list := Inject(Lists(s, t), pid, vid.value).value;
          DeliverStep(s, t, pid, vid.value, list, bases);
          ScheduleKeepsInv(MarkPending(WithLists(s, t, list), t), bases);
        }
      }
    }
  }

  // ---------------------------------------------------------------------------------------
  // Runs
  // ---------------------------------------------------------------------------------------

  // The state after a sequence of steps, if each was possible and none left the program.
  function RunEnd(s: Sys, es: seq<Step>): Option<Sys> {
    if es == [] then Some(s)
    else match RunEnd(s, es[..|es| - 1])
    case None => None
    case Some(t) =>
      var e := es[|es| - 1];
      if Shaped(t) && Enabled(t, e) && !Next(t, e).halted then Some(Next(t, e)) else None
  }

  // The start of every run: main has initialised the guests and restores guest 0, without a
  // trap frame.
  ghost predicate Initialised(s: Sys, bases: seq<nat>) {
    && Shaped(s) && !s.idle && !s.halted && |bases| == |s.vm|
    && (forall i :: 0 <= i < |s.vm| ==>
          && s.vm[i].valid && s.vm[i].wfi == WfiOut && !s.vm[i].dirty
          && Baddr(s.vm[i].bk.vttbr) == bases[i])
  }

  lemma FirstRestore(s: Sys, bases: seq<nat>)
    requires Initialised(s, bases)
    ensures Inv(Restore(s, 0, false), bases) && !Restore(s, 0, false).halted
    ensures forall i :: 0 < i < |s.vm| ==> Logical(Restore(s, 0, false), i) == Logical(s, i)
    ensures var c := Restore(s, 0, false).live;
      && c.banked == s.vm[0].bk.banked && c.cp == s.vm[0].bk.cp && c.ctlr == s.vm[0].bk.ctlr
      && c.list == s.vm[0].bk.list && c.r == s.live.r && c.lrUsr == s.live.lrUsr
      && c.vttbr % 0x100_0000_0000 == bases[0] && c.vttbr / 0x1_0000_0000_0000 % 0x100 == 0
  {
    hide Baddr, Vmid, WithVmid, State;
    forall i | 0 <= i < |s.vm|
      ensures Baddr(Logical(s, i).vttbr) == bases[i]
    {
      TagTwice(s.vm[i].bk.vttbr, i);
    }
    TagTwice(s.vm[0].bk.vttbr, 0);
    VttbrFields(Restore(s, 0, false).live.vttbr);
  }

  lemma {:induction false} RunKeepsInv(s: Sys, es: seq<Step>, bases: seq<nat>)
    requires Inv(s, bases) && RunEnd(s, es).Some?
    ensures Inv(RunEnd(s, es).value, bases) && |RunEnd(s, es).value.vm| == |s.vm|
    ensures es != [] ==> !RunEnd(s, es).value.halted
  {
    hide Inv, Next;
    if es != [] {
      RunKeepsInv(s, es[..|es| - 1], bases);
      StepSimulates(RunEnd(s, es[..|es| - 1]).value, es[|es| - 1], bases);
    }
  }

  function Actions(s: Sys, es: seq<Step>): seq<Act>
    requires RunEnd(s, es).Some?
  {
    if es == [] then []
    else Actions(s, es[..|es| - 1]) + [Action(RunEnd(s, es[..|es| - 1]).value, es[|es| - 1])]
  }

  // The operations of a trace that concern guest i, in order.
  function OpsOf(acts: seq<Act>, i: nat): seq<Op> {
    if acts == [] then []
    else
      var a := acts[|acts| - 1];
      OpsOf(acts[..|acts| - 1], i) + (if a.On? && a.vm == i then [a.op] else [])
  }

  // A guest on a machine of its own.
  function Alone(c: Ctx, ops: seq<Op>): (d: Ctx)
    requires ShapedCtx(c)
    ensures ShapedCtx(d)
  {
    if ops == [] then c
    else
      var d := Alone(c, ops[..|ops| - 1]);
      EffectShaped(d, ops[|ops| - 1]);
      Effect(d, ops[|ops| - 1])
  }

  lemma OpsAppend(acts: seq<Act>, a: Act, i: nat)
    ensures OpsOf(acts + [a], i) == OpsOf(acts, i) + (if a.On? && a.vm == i then [a.op] else [])
  {
    assert (acts + [a])[..|acts|] == acts;
  }

  // One more operation of the guest on its own machine, or none.
  lemma AloneAppend(c: Ctx, ops: seq<Op>, i: nat, a: Act)
    requires ShapedCtx(c)
    ensures Alone(c, ops + (if a.On? && a.vm == i then [a.op] else [])) == After(Alone(c, ops), i, a)
  {
    hide Effect;
    if a.On? && a.vm == i {
      assert (ops + [a.op])[..|ops|] == ops;
    } else {
      assert ops + [] == ops;
    }
  }

  lemma LogicalShaped(s: Sys, bases: seq<nat>, i: nat)
    requires Inv(s, bases) && i < |s.vm|
    ensures ShapedCtx(Logical(s, i))
  {
    hide WithVmid;
  }

  // What StepSimulates says about guest i.
  lemma StepOfGuest(s: Sys, e: Step, bases: seq<nat>, i: nat)
    requires Inv(s, bases) && Shaped(s) && Enabled(s, e) && !Next(s, e).halted && i < |s.vm|
    ensures |Next(s, e).vm| == |s.vm| && ShapedCtx(Logical(s, i))
    ensures Logical(Next(s, e), i) == After(Logical(s, i), i, Action(s, e))
  {
    hide Inv, Next, Action, Effect, Logical;
    LogicalShaped(s, bases, i);
    StepSimulates(s, e, bases);
  }

  // Refinement: over every run of interrupts, traps, guest execution and idling, each guest's
  // context is what it would be if the guest had a machine of its own and only the operations
  // addressed to it had happened.
  lemma {:induction false} PrivateContexts(s: Sys, es: seq<Step>, bases: seq<nat>, i: nat)
    requires Inv(s, bases) && RunEnd(s, es).Some? && i < |s.vm|
    ensures |RunEnd(s, es).value.vm| == |s.vm| && ShapedCtx(Logical(s, i))
    ensures Logical(RunEnd(s, es).value, i) == Alone(Logical(s, i), OpsOf(Actions(s, es), i))
  {
    hide Inv, Next, Action, Logical, After, Enabled, ShapedCtx;
    LogicalShaped(s, bases, i);
    if es != [] {
      var n := |es| - 1;
      PrivateContexts(s, es[..n], bases, i);
      RunKeepsInv(s, es[..n], bases);
      var t := RunEnd(s, es[..n]).value;
      StepOfGuest(t, es[n], bases, i);
      var acts, a := Actions(s, es[..n]), Action(t, es[n]);
      OpsAppend(acts, a, i);
      AloneAppend(Logical(s, i), OpsOf(acts, i), i, a);
    }
  }

  // What the running guest sees is its own context.
  lemma RunningGuestSeesItself(s: Sys, es: seq<Step>, bases: seq<nat>)
    requires Inv(s, bases) && RunEnd(s, es).Some?
    ensures var t := RunEnd(s, es).value;
      !t.idle ==> t.cur < |t.vm| && t.live == Logical(t, t.cur)
  {
    RunKeepsInv(s, es, bases);
    InvParts(RunEnd(s, es).value, bases);
  }

  // In every reachable state the test of irq_handler, a dirty backup and not in WFI, holds
  // exactly for the current guest of a machine that is not idle; and in every reachable idle
  // state nobody is dirty and every valid guest waits.
  lemma ActiveMeansRunning(s: Sys, es: seq<Step>, bases: seq<nat>, v: nat)
    requires Inv(s, bases) && RunEnd(s, es).Some? && v < |s.vm|
    ensures var t := RunEnd(s, es).value;
      && |t.vm| == |s.vm|
      && (Active(t.vm[v]) <==> v == t.cur && !t.idle)
      && (t.vm[v].dirty <==> v == t.cur && !t.idle)
      && (t.idle && t.vm[v].valid ==> t.vm[v].wfi == WfiIn)
  {
    hide Baddr, Vmid, HasPending, WithVmid;
    RunKeepsInv(s, es, bases);
    InvParts(RunEnd(s, es).value, bases);
  }

  lemma VttbrFields(v: u64)
    ensures Baddr(v) == v % 0x100_0000_0000 && Vmid(v) == v / 0x1_0000_0000_0000 % 0x100
  {
  }

  // In every reachable state in which a guest runs, VTTBR holds that guest's own table base
  // in bits 39:0 and its VMID in bits 55:48.
  lemma VttbrAgrees(s: Sys, es: seq<Step>, bases: seq<nat>)
    requires Inv(s, bases) && RunEnd(s, es).Some? && !RunEnd(s, es).value.idle
    ensures var t := RunEnd(s, es).value;
      && t.cur < |bases| == |s.vm|
      && t.live.vttbr % 0x100_0000_0000 == bases[t.cur]
      && t.live.vttbr / 0x1_0000_0000_0000 % 0x100 == t.cur % 0x100
  {
    hide Baddr, Vmid, HasPending, WithVmid;
    RunKeepsInv(s, es, bases);
    var t := RunEnd(s, es).value;
    InvParts(t, bases);
    TagTwice(t.live.vttbr, t.cur);
    VttbrFields(t.live.vttbr);
  }

  // ---------------------------------------------------------------------------------------
  // Interrupt delivery
  // ---------------------------------------------------------------------------------------

  lemma DeliveryPossible(s: Sys, pid: nat, t: nat)
    requires Shaped(s) && !s.halted && Route(pid) == Some(t) && !Irq(s, pid).halted
    ensures t < |s.vm| && IrqToVirq(s.vm[t].virq, pid, 0).Some?
    ensures Inject(Lists(s, t), pid, IrqToVirq(s.vm[t].virq, pid, 0).value).Some?
  {
    hide State, Inject, Schedule;
  }

  lemma DeliveryContext(s: Sys, pid: nat, bases: seq<nat>, t: nat, vid: nat, i: nat)
    requires Inv(s, bases) && !s.halted && Route(pid) == Some(t) && !Irq(s, pid).halted && i < |s.vm|
    requires t < |s.vm| && IrqToVirq(s.vm[t].virq, pid, 0) == Some(vid)
    ensures |Irq(s, pid).vm| == |s.vm| && ShapedCtx(Logical(s, i))
    ensures Logical(Irq(s, pid), i) == if i == t then Effect(Logical(s, t), Deliver(pid, vid)) else Logical(s, i)
  {
    hide Baddr, Vmid, WithVmid, Inject, Irq, IrqToVirq, Inv, OwnTables, Wakeable, OneLive;
    InvParts(s, bases);
    InterruptStep(s, pid, bases);
    assert Action(s, Interrupt(pid)) == On(t, Deliver(pid, vid));
  }

  lemma DeliverEffect(c: Ctx, pid: nat, vid: nat)
    requires ShapedCtx(c) && Inject(c.list, pid, vid).Some?
    ensures Inject(c.list, pid, vid) == Some(Effect(c, Deliver(pid, vid)).list)
    ensures Occupied(Effect(c, Deliver(pid, vid)).list) == Occupied(c.list) + 1
  {
    hide State, Inject, Occupied, LrWord;
    InjectSpec(c.list, pid, vid);
  }

  // Running or suspended, idle or not, a device interrupt does the same to its guest's list
  // registers: the lowest Invalid slot becomes Pending, one more is occupied; nothing changes
  // for any other guest.
  lemma DeliveryIsUniform(s: Sys, pid: nat, bases: seq<nat>, t: nat)
    requires Inv(s, bases) && !s.halted && Route(pid) == Some(t) && !Irq(s, pid).halted
    ensures t < |s.vm| == |Irq(s, pid).vm|
    ensures IrqToVirq(s.vm[t].virq, pid, 0).Some?
    ensures var vid := IrqToVirq(s.vm[t].virq, pid, 0).value;
      && Inject(Logical(s, t).list, pid, vid) == Some(Logical(Irq(s, pid), t).list)
      && Occupied(Logical(Irq(s, pid), t).list) == Occupied(Logical(s, t).list) + 1
    ensures forall i :: 0 <= i < |s.vm| && i != t ==> Logical(Irq(s, pid), i) == Logical(s, i)
  {
    hide State, Inject, Irq, Occupied, IrqToVirq, Inv, Logical, Effect, Lists;
    InvShape(s, bases);
    DeliveryPossible(s, pid, t);
    var vid := IrqToVirq(s.vm[t].virq, pid, 0).value;
    ListsAreLogical(s, bases, t);
    DeliverEffect(Logical(s, t), pid, vid);
    forall i | 0 <= i < |s.vm|
      ensures ShapedCtx(Logical(s, i)) && |Irq(s, pid).vm| == |s.vm|
      ensures Logical(Irq(s, pid), i) == if i == t then Effect(Logical(s, t), Deliver(pid, vid)) else Logical(s, i)
    {
      DeliveryContext(s, pid, bases, t, vid, i);
    }
  }

  // Nothing but the list registers of guest t has changed, and the guest is marked if it is in WFI.
  ghost predicate OnlyLists(s: Sys, s': Sys, t: nat)
    requires t < |s.vm|
  {
    var g := s.vm[t];
    && |s'.vm| == |s.vm| && s' == s.(live := s'.live, vm := s.vm[t := s'.vm[t]])
    && s'.live == s.live.(list := s'.live.list)
    && s'.vm[t] == g.(bk := g.bk.(list := s'.vm[t].bk.list), wfi := if g.wfi == WfiIn then WfiPending else g.wfi)
    && (if g.dirty && g.wfi != WfiIn then s'.vm[t].bk == g.bk else s'.live == s.live)
  }

  // While a guest runs it goes on after an interrupt for any guest t.
  lemma DeliveryKeepsRunning(s: Sys, pid: nat, t: nat)
    requires Shaped(s) && !s.halted && !s.idle && 40 <= pid < 52 && t == pid % 4 && !Irq(s, pid).halted
    ensures OnlyLists(s, Irq(s, pid), t)
  {
    hide DeviceIrq, OnlyLists;
    RouteOf(pid);
    DeviceLists(s, t, pid);
  }

  lemma DeviceLists(s: Sys, t: nat, pid: nat)
    requires s.cur < |s.vm| && t < |s.vm| && !s.halted && !s.idle && !DeviceIrq(s, t, pid).halted
    ensures OnlyLists(s, DeviceIrq(s, t, pid), t)
  {
    hide Inject, IrqToVirq, Schedule, OnlyLists, Lists;
    var vid := IrqToVirq(s.vm[t].virq, pid, 0);
    ListsOnly(s, t, Inject(Lists(s, t), pid, vid.value).value);
  }

  lemma ListsOnly(s: Sys, t: nat, list: seq<u32>)
    requires t < |s.vm|
    ensures OnlyLists(s, MarkPending(WithLists(s, t, list), t), t)
  {
  }

  lemma InvShape(s: Sys, bases: seq<nat>)
    requires Inv(s, bases)
    ensures Shaped(s) && forall i :: 0 <= i < |s.vm| ==> ShapedCtx(Logical(s, i))
  {
  }

  // The test dirty && wfi_state != WFI_In selects the place where the guest's lists are.
  lemma ListsAreLogical(s: Sys, bases: seq<nat>, t: nat)
    requires Inv(s, bases) && t < |s.vm|
    ensures Lists(s, t) == Logical(s, t).list
  {
    hide Baddr, Vmid, WithVmid, HasPending;
  }

  // ---------------------------------------------------------------------------------------
  // The timer, and what each trap does
  // ---------------------------------------------------------------------------------------

  // Interrupt 34 hands the processor on; 1023, the acknowledgement of no interrupt, changes nothing.
  lemma TimerPreempts(s: Sys, bases: seq<nat>)
    requires Inv(s, bases) && !s.halted
    ensures HandsOn(s, Irq(s, 34))
    ensures Irq(s, 1023) == s
  {
    hide Inv, Schedule, HandsOn;
    InvParts(s, bases);
    ScheduleHandsOn(s);
  }

  // The running guest behind the trapped instruction.
  function Behind(s: Sys): Ctx {
    s.live.(banked := s.live.banked.(elrHyp := (s.live.banked.elrHyp + 4) % 0x1_0000_0000))
  }

  // What a trap of exception class HSR[31:26] does: a trapped WFI puts the guest into WFI and hands
  // the processor on; cp15 and cp14 accesses are skipped; a hypervisor call and a fault for which a
  // page was allocated leave the return address as it was; a device access loads register rt or none.
  lemma TrapEffects(s: Sys, hsr: u32, a: Answer, bases: seq<nat>)
    requires Inv(s, bases) && !s.halted && !s.idle && s.vm[s.cur].realview
    ensures var t, ec, c := HypTrap(s, hsr, a), hsr / 0x400_0000, Behind(s);
      && (ec == 0x01 && hsr % 2 == 0 ==> HandsOn(s.(live := c, vm := s.vm[s.cur := s.vm[s.cur].(wfi := WfiIn)]), t))
      && (ec == 0x03 || ec == 0x04 || ec == 0x05 ==> t == s.(live := c))
      && (ec == 0x12 || (ec == 0x24 && a == Redo) ==> t == s)
      && (ec == 0x24 && a.Access? && !t.halted ==>
            t.live == if !a.isLoad then c else if a.rt == 14 then c.(lrUsr := a.value)
                      else if a.rt < |c.r| then c.(r := c.r[a.rt := a.value]) else c)
      && (ec == 0x24 && a.Access? && !t.halted ==> t == s.(live := t.live) && (a.rt < 13 || a.rt == 14))
  {
    hide Baddr, Vmid, WithVmid, State, Schedule, HandsOn, Inv, HasPending;
    InvParts(s, bases);
    AdvanceBack(s.live);
    var c := Advance(s.live, 4);
    MoveLive(s, c, bases);
    if HsrClass(hsr) == 0x01 && !IsWfe(hsr) {
      WaitIsSettling(s.(live := c), bases);
      ScheduleHandsOn(s.(live := c, vm := s.vm[s.cur := s.vm[s.cur].(wfi := WfiIn)]));
    }
  }

  // ---------------------------------------------------------------------------------------
  // Bounded waiting
  // ---------------------------------------------------------------------------------------

  predicate CallsScheduler(s: Sys, e: Step)
    requires Shaped(s) && Enabled(s, e)
  {
    match e
    case Interrupt(pid) => pid == 34 || (40 <= pid < 52 && s.idle)
    case Trap(hsr, _) => hsr / 0x400_0000 == 1
    case Guest(_) => false
    case IdleLoop(_, _, _, _) => false
  }

  ghost predicate Waiting(s: Sys, v: nat) {
    && !s.idle && s.cur < |s.vm| && v < |s.vm|
    && v != s.cur && Runnable(s.vm[v])
  }

  // Calling the scheduler brings a waiting guest closer.
  lemma ScheduleBringsCloser(s: Sys, bases: seq<nat>, v: nat)
    requires Settling(s, bases) && v < |s.vm| && v != s.cur && Runnable(s.vm[v])
    ensures var s' := Schedule(s);
      && |s'.vm| == |s.vm| && s'.cur < |s.vm| && !s'.halted && !s'.idle
      && (s'.cur == v || (Waiting(s', v) && s'.vm[v].wfi == s.vm[v].wfi
                          && Distance(|s.vm|, s'.cur, v) < Distance(|s.vm|, s.cur, v)))
  {
    hide Baddr, Vmid, WithVmid, State, HasPending, Pick;
    ScheduleOutcome(s);
    PickNearest(s.vm, s.cur, v);
  }

  lemma WaitingInterrupt(s: Sys, pid: nat, bases: seq<nat>, v: nat)
    requires Inv(s, bases) && !s.halted && Waiting(s, v) && !Irq(s, pid).halted && pid != 34
    ensures Waiting(Irq(s, pid), v) && Irq(s, pid).cur == s.cur && |Irq(s, pid).vm| == |s.vm|
    ensures Irq(s, pid).vm[v].wfi == s.vm[v].wfi
  {
    hide Baddr, Vmid, WithVmid, State, Inject, Schedule, HasPending, LrWord;
    InvParts(s, bases);
  }

  // While it waits a guest stays runnable; each call of the scheduler dispatches it or brings
  // it closer, and nothing else moves the machine.
  lemma WaitingStep(s: Sys, e: Step, bases: seq<nat>, v: nat)
    requires Inv(s, bases) && Enabled(s, e) && !Next(s, e).halted && Waiting(s, v)
    ensures var s' := Next(s, e);
      && |s'.vm| == |s.vm| && s'.cur < |s.vm|
      && (s'.cur == v || (
            && Waiting(s', v) && s'.vm[v].wfi == s.vm[v].wfi
            && Distance(|s.vm|, s'.cur, v) + (if CallsScheduler(s, e) then 1 else 0) <= Distance(|s.vm|, s.cur, v)))
  {
    hide Baddr, Vmid, IsWfe, WithVmid, State, Schedule, Inv, HsrClass, DeviceIrq, HasPending;
    InvParts(s, bases);
    match e
    case Interrupt(pid) =>
      if pid == 34 {
        ScheduleBringsCloser(s, bases, v);
      } else {
        WaitingInterrupt(s, pid, bases, v);
      }
    case Trap(hsr, a) =>
      MoveLive(s, Advance(s.live, 4), bases);
      var s0 := s.(live := Advance(s.live, 4));
      InvParts(s0, bases);
      HsrParts(hsr);
      if HsrClass(hsr) == 0x01 {
        WaitIsSettling(s0, bases);
        ScheduleBringsCloser(s0.(vm := s0.vm[s0.cur := s0.vm[s0.cur].(wfi := WfiIn)]), bases, v);
      }
    case Guest(c) =>
    case IdleLoop(_, _, _, _) =>
  }

  lemma WaitIsSettling(s: Sys, bases: seq<nat>)
    requires Inv(s, bases) && !s.halted && !s.idle
    ensures Settling(s.(vm := s.vm[s.cur := s.vm[s.cur].(wfi := WfiIn)]), bases)
  {
    hide Baddr, Vmid, WithVmid, State, HasPending;
  }

  function Calls(s: Sys, es: seq<Step>): nat
    requires RunEnd(s, es).Some?
  {
    if es == [] then 0
    else
      var t := RunEnd(s, es[..|es| - 1]).value;
      Calls(s, es[..|es| - 1]) + (if CallsScheduler(t, es[|es| - 1]) then 1 else 0)
  }

  // The timer interrupts of a run.
  function Ticks(es: seq<Step>): nat {
    if es == [] then 0 else Ticks(es[..|es| - 1]) + (if es[|es| - 1] == Interrupt(34) then 1 else 0)
  }

  lemma {:induction false} TicksAreCalls(s: Sys, es: seq<Step>)
    requires RunEnd(s, es).Some?
    ensures Ticks(es) <= Calls(s, es)
  {
    if es != [] {
      TicksAreCalls(s, es[..|es| - 1]);
    }
  }

  // Guest v is current in some state of the run after the first.
  predicate Dispatched(s: Sys, es: seq<Step>, v: nat)
    requires RunEnd(s, es).Some?
  {
    es != [] && (RunEnd(s, es).value.cur == v || Dispatched(s, es[..|es| - 1], v))
  }

  lemma {:induction false} WaitingRun(s: Sys, es: seq<Step>, bases: seq<nat>, v: nat)
    requires Inv(s, bases) && RunEnd(s, es).Some? && Waiting(s, v) && !Dispatched(s, es, v)
    ensures var t := RunEnd(s, es).value;
      && |t.vm| == |s.vm| && Waiting(t, v) && t.vm[v].wfi == s.vm[v].wfi
      && Calls(s, es) + Distance(|s.vm|, t.cur, v) <= Distance(|s.vm|, s.cur, v)
  {
    hide Inv, Next, CallsScheduler, Enabled;
    if es != [] {
      var n := |es| - 1;
      WaitingRun(s, es[..n], bases, v);
      RunKeepsInv(s, es[..n], bases);
      WaitingStep(RunEnd(s, es[..n]).value, es[n], bases, v);
    }
  }

  // A runnable guest that is not current is dispatched within n - 1 calls of the scheduler,
  // whatever interrupts, traps and guest execution come in between; n - 1 timer interrupts are
  // enough of them.
  lemma BoundedWaiting(s: Sys, es: seq<Step>, bases: seq<nat>, v: nat)
    requires Inv(s, bases) && RunEnd(s, es).Some? && Waiting(s, v)
    ensures Calls(s, es) >= |s.vm| - 1 ==> Dispatched(s, es, v)
    ensures Ticks(es) >= |s.vm| - 1 ==> Dispatched(s, es, v)
  {
    TicksAreCalls(s, es);
    if !Dispatched(s, es, v) {
      WaitingRun(s, es, bases, v);
    }
  }

  // ---------------------------------------------------------------------------------------
  // Wake-up
  // ---------------------------------------------------------------------------------------

  // An interrupt for a valid guest in WFI: if the machine was idle the guest runs when the
  // handler returns, with the interrupt Pending in the live list registers; otherwise the
  // guest is marked for wake-up and the interrupt is Pending in its saved list.
  lemma ArrivalWakes(s: Sys, pid: nat, bases: seq<nat>, t: nat)
    requires Inv(s, bases) && !s.halted && Route(pid) == Some(t) && t < |s.vm|
    requires s.vm[t].valid && s.vm[t].wfi == WfiIn && !Irq(s, pid).halted
    ensures var s' := Irq(s, pid);
      && |s'.vm| == |s.vm|
      && (s.idle ==> s'.cur == t && !s'.idle && s'.vm[t].wfi == WfiOut && HasPending(s'.live.list))
      && (!s.idle ==> s'.cur == s.cur && !s'.idle && s'.vm[t].wfi == WfiPending && HasPending(s'.vm[t].bk.list))
  {
    hide Baddr, Vmid, WithVmid, State, Inject, Schedule, HasPending;
    InvParts(s, bases);
    var vid := IrqToVirq(s.vm[t].virq, pid, 0).value;
    var list := Inject(Lists(s, t), pid, vid).value;
    InjectKeepsPending(Lists(s, t), pid, vid);
    DeliverStep(s, t, pid, vid, list, bases);
    var s2 := MarkPending(WithLists(s, t, list), t);
    if s.idle {
      OnlyRunnable(s2, t);
      ScheduleOutcome(s2);
      ScheduleKeepsInv(s2, bases);
      InvParts(Schedule(s2), bases);
    }
  }

  // In every reachable state a guest that is marked for wake-up is suspended and has a Pending
  // interrupt in its saved list registers.
  lemma MarkedHasPending(s: Sys, es: seq<Step>, bases: seq<nat>, v: nat)
    requires Inv(s, bases) && RunEnd(s, es).Some? && v < |s.vm|
    ensures var t := RunEnd(s, es).value;
      && |t.vm| == |s.vm|
      && (t.vm[v].wfi == WfiPending ==> !t.vm[v].dirty && HasPending(t.vm[v].bk.list))
  {
    hide Baddr, Vmid, WithVmid, State;
    RunKeepsInv(s, es, bases);
    InvParts(RunEnd(s, es).value, bases);
  }

  lemma OnlyRunnable(s: Sys, t: nat)
    requires s.cur < |s.vm| && t < |s.vm| && Runnable(s.vm[t])
    requires forall i :: 0 <= i < |s.vm| && i != t ==> !Runnable(s.vm[i])
    ensures Pick(s.vm, s.cur, 0) == Some(t)
  {
    PickNearest(s.vm, s.cur, t);
    PickIs(s.vm, s.cur, 0);
  }

  lemma PendingStep(s: Sys, e: Step, bases: seq<nat>, t: nat, k: nat)
    requires Inv(s, bases) && Enabled(s, e) && !Next(s, e).halted && Waiting(s, t) && k < LISTS
    requires State(Logical(s, t).list[k]) == LR_PENDING
    ensures |Next(s, e).vm| == |s.vm| && ShapedCtx(Logical(Next(s, e), t))
    ensures Logical(Next(s, e), t).list[k] == Logical(s, t).list[k]
  {
    hide Baddr, Vmid, IsWfe, WithVmid, State, HsrClass, Inject, Next, HasPending;
    StepSimulates(s, e, bases);
    InvParts(s, bases);
    var a := Action(s, e);
    if a.On? && a.vm == t && a.op.Deliver? {
      var l := Logical(s, t).list;
      if Inject(l, a.op.pid, a.op.vid).Some? {
        InjectKeepsPending(l, a.op.pid, a.op.vid);
      }
    }
  }

  // A Pending interrupt of a guest that is to be woken stays where it is, and the guest stays
  // marked, until the guest is dispatched; by BoundedWaiting that is after at most n - 1 calls
  // of the scheduler.
  lemma {:induction false} NoLostWakeUp(s: Sys, es: seq<Step>, bases: seq<nat>, t: nat, k: nat)
    requires Inv(s, bases) && RunEnd(s, es).Some? && Waiting(s, t) && k < LISTS
    requires s.vm[t].wfi == WfiPending && State(Logical(s, t).list[k]) == LR_PENDING
    requires !Dispatched(s, es, t)
    ensures var u := RunEnd(s, es).value;
      && |u.vm| == |s.vm| && u.vm[t].wfi == WfiPending && ShapedCtx(Logical(u, t))
      && Logical(u, t).list[k] == Logical(s, t).list[k]
  {
    hide Inv, Next, State, Enabled, CallsScheduler, WithVmid;
    InvParts(s, bases);
    WaitingRun(s, es, bases, t);
    if es != [] {
      var n := |es| - 1;
      NoLostWakeUp(s, es[..n], bases, t, k);
      RunKeepsInv(s, es[..n], bases);
      WaitingRun(s, es[..n], bases, t);
      PendingStep(RunEnd(s, es[..n]).value, es[n], bases, t, k);
    }
  }
}
