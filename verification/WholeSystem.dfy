// The whole machine: the switch of module Runs drives VTTBR, the tables of module Paging decide
// what the running guest's accesses reach, and its faults change them.  Both of main's
// configurations are instances.
module WholeSystem {
  import opened Options
  import opened BitOps
  import opened PhysMem
  import opened Streams
  import opened Walker
  import opened TableModel
  import opened PageTable
  import opened GuestTables
  import opened Allocator
  import opened Paging
  import opened Faults
  import opened PagingRuns
  import opened StaticMachine
  import opened Machine
  import Runs
  import H = Hypervisor

  // What happens: a step of the vCPU machine during which handlers wrote memory in the trap
  // frame only; a trap of the running guest for which a page is allocated, `pushed` being memory
  // with the trap frame in place (module Hypervisor proves that traps do just that); or a byte
  // access of the running guest.
  datatype Event =
    | Handled(step: Step, after: Words)
    | Faulted(hsr: u32, x: u32, pushed: Words)
    | Accesses(x: u32, store: Option<byte>)

  // hist: the allocations so far.
  datatype Whole = Whole(s: Sys, w: World, hist: seq<Grant>)

  function Bases(su: Setup): seq<nat> {
    seq(|su.guests|, i requires 0 <= i < |su.guests| => su.guests[i].ptBase)
  }

  ghost predicate Good(su: Setup, u: Whole) {
    && |u.s.vm| == |su.guests| && Runs.Inv(u.s, Bases(su)) && !u.s.halted
    && Inv(su, u.w, u.hist, |su.guests|) && H.FrameClear(su)
  }

  // The trap for which the handler allocates and redoes the instruction.
  predicate Redoes(e: Step) {
    e.Trap? && HsrClass(e.hsr) == 0x24 && e.answer == Redo
  }

  // Only addresses that do not translate fault, and only addresses that translate are accessed.
  ghost predicate Possible(su: Setup, u: Whole, e: Event) {
    && Shaped(u.s) && !u.s.halted
    && match e
       case Handled(step, after) =>
         Enabled(u.s, step) && !Next(u.s, step).halted && !Redoes(step) && H.OnlyFrame(u.w.m, after)
       case Faulted(hsr, x, pushed) =>
         && !u.s.idle && HsrClass(hsr) == 0x24 && u.s.vm[u.s.cur].realview
         && Served(x) && Translate(u.w.m, u.s.live.vttbr, x) == None
         && Grantable(su, u.hist, |su.guests|, FaultGrant(u.s.cur, x)) && H.OnlyFrame(u.w.m, pushed)
       case Accesses(x, _) => !u.s.idle && Translate(u.w.m, u.s.live.vttbr, x).Some?
  }

  ghost function Happen(su: Setup, u: Whole, e: Event): Whole
    requires Good(su, u) && Possible(su, u, e)
  {
    match e
    case Handled(step, after) => u.(s := Next(u.s, step), w := u.w.(m := after))
    case Faulted(hsr, x, pushed) =>
      var g := FaultGrant(u.s.cur, x);
      PushKeepsInv(su, u.w, pushed, u.hist);
      Whole(HypTrap(u.s, hsr, Redo), NewPageSpec(su, u.w.(m := pushed), u.hist, |su.guests|, g), u.hist + [g])
    case Accesses(x, store) =>
      match store
      case None => u
      case Some(b) => u.(w := u.w.(m := StoreVia(u.w.m, u.s.live.vttbr, x, b)))
  }

  lemma PushKeepsInv(su: Setup, w: World, m: Words, hist: seq<Grant>)
    requires Inv(su, w, hist, |su.guests|) && H.FrameClear(su) && H.OnlyFrame(w.m, m)
    ensures Inv(su, w.(m := m), hist, |su.guests|)
  {
    hide Inv, H.OnlyFrame;
    H.FrameKeepsPaged(su, w, w.(m := m), hist, |su.guests|);
  }

  // ---------------------------------------------------------------------------------------
  // VTTBR selects the running guest's map
  // ---------------------------------------------------------------------------------------

  // The walk looks at bits 39:0 of VTTBR only.
  lemma WalkUsesBaddr(m: Words, v: u64, b: nat, x: u32)
    requires Baddr(v) == b
    ensures Translate(m, v, x) == Translate(m, b, x)
  {
    hide LoadD, WalkL2;
    var h, l := v / 0x100_0000_0000, v % 0x100_0000_0000;
    DivUnique(v, 0x20, 0x8_0000_0000 * h + l / 0x20, l % 0x20);
    DivUnique(0x8_0000_0000 * h + l / 0x20, 0x8_0000_0000, h, l / 0x20);
    DivUnique(l / 0x20, 0x8_0000_0000, 0, l / 0x20);
  }

  // VTTBR holds the table base of the running guest.
  lemma LiveBase(su: Setup, u: Whole, x: u32)
    requires Good(su, u) && !u.s.idle
    ensures u.s.cur < |su.guests|
    ensures Translate(u.w.m, u.s.live.vttbr, x) == Translate(u.w.m, su.guests[u.s.cur].ptBase, x)
  {
    hide Baddr, Vmid, Translate, WithVmid, Inv;
    Runs.InvParts(u.s, Bases(su));
    Runs.TagTwice(u.s.live.vttbr, u.s.cur);
    WalkUsesBaddr(u.w.m, u.s.live.vttbr, su.guests[u.s.cur].ptBase, x);
  }

  lemma LiveMap(su: Setup, u: Whole, x: u32)
    requires Good(su, u) && !u.s.idle
    ensures u.s.cur < |su.guests| && |u.hist| <= PAGE_COUNT
    ensures Translate(u.w.m, u.s.live.vttbr, x) == InPage(GuestPage(su, u.s.cur, u.hist, x / 0x1000), x)
  {
    hide Translate, Inv, Runs.Inv, GuestPage;
    LiveBase(su, u, x);
    InvParts(su, u.w, u.hist, |su.guests|);
    TranslatesHistory(su, u.w, u.hist, |su.guests|, u.s.cur, x);
  }

  // ---------------------------------------------------------------------------------------
  // Runs
  // ---------------------------------------------------------------------------------------

  // A fault leaves the vCPU machine as it was: the instruction is executed again.
  lemma FaultIsTransparent(s: Sys, hsr: u32)
    requires Shaped(s) && HsrClass(hsr) == 0x24 && s.vm[s.cur].realview
    ensures HypTrap(s, hsr, Redo) == s
  {
    hide HsrClass, IsWfe;
    Runs.AdvanceBack(s.live);
  }

  lemma EventKeepsGood(su: Setup, u: Whole, e: Event)
    requires Good(su, u) && Possible(su, u, e)
    ensures Good(su, Happen(su, u, e))
  {
    hide Inv, Runs.Inv, Next, H.OnlyFrame, Translate, StoreVia, NewPageSpec, Grantable, Bases, HypTrap, H.FrameClear;
    match e
    case Handled(step, after) =>
      Runs.StepSimulates(u.s, step, Bases(su));
      PushKeepsInv(su, u.w, after, u.hist);
    case Faulted(hsr, x, pushed) =>
      FaultIsTransparent(u.s, hsr);
      PushKeepsInv(su, u.w, pushed, u.hist);
      NewPageKeepsInv(su, u.w.(m := pushed), u.hist, |su.guests|, FaultGrant(u.s.cur, x));
    case Accesses(x, store) =>
      if store.Some? {
        LiveBase(su, u, x);
        SameStore(u.w.m, u.s.live.vttbr, su.guests[u.s.cur].ptBase, x, store.value);
        StoreKeepsInv(su, u.w, u.hist, |su.guests|, u.s.cur, x, store.value);
      }
  }

  lemma SameStore(m: Words, v: nat, v': nat, x: u32, b: byte)
    requires Translate(m, v, x) == Translate(m, v', x)
    ensures StoreVia(m, v, x, b) == StoreVia(m, v', x, b)
  {
    hide Translate;
  }

  ghost function Run(su: Setup, u: Whole, es: seq<Event>): (r: Option<Whole>)
    requires Good(su, u)
    ensures r.Some? ==> Good(su, r.value)
  {
    if es == [] then Some(u)
    else match Run(su, u, Init(es))
    case None => None
    case Some(v) =>
      if Possible(su, v, Last(es)) then
        EventKeepsGood(su, v, Last(es));
        Some(Happen(su, v, Last(es)))
      else None
  }

  // Whatever interrupts, traps, page faults, guest execution and guest accesses happen, in every
  // state in which a guest runs the hardware translates each of its addresses by that guest's
  // own map: its base map and the pages allocated to it so far.
  lemma EveryRunTranslates(su: Setup, u: Whole, es: seq<Event>, x: u32)
    requires Good(su, u)
    ensures match Run(su, u, es)
      case None => true
      case Some(v) => Good(su, v) && |v.hist| <= PAGE_COUNT && (!v.s.idle ==>
          && v.s.cur < |su.guests|
          && Translate(v.w.m, v.s.live.vttbr, x) == InPage(GuestPage(su, v.s.cur, v.hist, x / 0x1000), x))
  {
    hide Good, Translate, GuestPage;
    if Run(su, u, es).Some? {
      var v := Run(su, u, es).value;
      HistorySize(su, v);
      if !v.s.idle {
        LiveMap(su, v, x);
      }
    }
  }

  lemma HistorySize(su: Setup, u: Whole)
    requires Good(su, u)
    ensures |u.hist| <= PAGE_COUNT && |su.guests| == |u.s.vm|
  {
  }

  // A fault maps the address and its alias for the running guest, to the page just allocated,
  // keeps every other translation of every guest, and the guest goes on at the same instruction
  // with the same registers.
  lemma FaultIsServed(su: Setup, u: Whole, e: Event, j: nat, y: u32)
    requires Good(su, u) && Possible(su, u, e) && e.Faulted? && j < |su.guests|
    ensures var v := Happen(su, u, e);
      && v.s == u.s && |u.hist| < PAGE_COUNT
      && Translate(v.w.m, v.s.live.vttbr, e.x) == Some(PageAddress(su.memBase, SlotOf(|u.hist| + 1)) + e.x % 0x1000)
      && Translate(v.w.m, su.guests[j].ptBase, y)
           == (if j == u.s.cur && SamePair(e.x, y) then Some(PageAddress(su.memBase, SlotOf(|u.hist| + 1)) + y % 0x1000)
               else Translate(u.w.m, su.guests[j].ptBase, y))
  {
    hide Inv, Runs.Inv, H.OnlyFrame, Translate, NewPageSpec, Bases, H.FrameClear, HypTrap, GuestPage, Room;
    FaultIsTransparent(u.s, e.hsr);
    LiveBase(su, u, e.x);
    EventKeepsGood(su, u, e);
    var v := Happen(su, u, e);
    LiveBase(su, v, e.x);
    ServedPages(e.x);
    PageAfterFault(su, u, v, e.x, j, y);
    PageAfterFault(su, u, v, e.x, u.s.cur, e.x);
  }

  lemma PageAfterFault(su: Setup, u: Whole, v: Whole, x: u32, j: nat, y: u32)
    requires Good(su, u) && Good(su, v) && v.hist == u.hist + [FaultGrant(u.s.cur, x)] && j < |su.guests|
    ensures |u.hist| < PAGE_COUNT
    ensures Translate(v.w.m, su.guests[j].ptBase, y)
         == (if j == u.s.cur && SamePair(x, y) then Some(PageAddress(su.memBase, SlotOf(|u.hist| + 1)) + y % 0x1000)
             else Translate(u.w.m, su.guests[j].ptBase, y))
  {
    hide Inv, Runs.Inv, Translate, GuestPage, H.FrameClear;
    InvParts(su, v.w, v.hist, |su.guests|);
    TranslatesHistory(su, u.w, u.hist, |su.guests|, j, y);
    TranslatesHistory(su, v.w, v.hist, |su.guests|, j, y);
    GuestPageAfter(su, j, u.hist, FaultGrant(u.s.cur, x), y / 0x1000);
    Addresses(su.memBase, SlotOf(|u.hist| + 1), SlotOf(|u.hist| + 1));
  }

  // ---------------------------------------------------------------------------------------
  // The static configuration
  // ---------------------------------------------------------------------------------------

  ghost predicate NoFault(es: seq<Event>) {
    forall k :: 0 <= k < |es| ==> !es[k].Faulted?
  }

  // Faults allocate one page each, nothing else allocates.
  lemma EventHistory(su: Setup, u: Whole, e: Event)
    requires Good(su, u) && Possible(su, u, e)
    ensures u.hist <= Happen(su, u, e).hist && (Happen(su, u, e).hist == u.hist <==> !e.Faulted?)
  {
    hide Inv, Runs.Inv, Grantable, NewPageSpec, HypTrap, Next, StoreVia, H.OnlyFrame, Translate;
  }

  lemma LastFault(es: seq<Event>)
    requires es != []
    ensures NoFault(es) <==> NoFault(Init(es)) && !Last(es).Faulted?
  {
    assert Last(es) == es[|es| - 1];
  }

  lemma {:induction false} HistoryGrows(su: Setup, u: Whole, es: seq<Event>)
    requires Good(su, u) && Run(su, u, es).Some?
    ensures u.hist <= Run(su, u, es).value.hist
    ensures Run(su, u, es).value.hist == u.hist <==> NoFault(es)
  {
    hide Good, Possible, Happen, NoFault;
    if es == [] {
      NothingHappened();
    } else {
      HistoryGrows(su, u, Init(es));
      EventHistory(su, Run(su, u, Init(es)).value, Last(es));
      LastFault(es);
    }
  }

  lemma NothingHappened()
    ensures NoFault([])
  {
  }

  // In the static configuration, from a state without allocations: after any run of the whole
  // machine every guest has its static map exactly if no guest has faulted, and a fault can only
  // be on an address that main's static map leaves to the allocator.
  lemma StaticExactly(limit: nat, u: Whole, es: seq<Event>)
    requires Limits(limit) && Good(Static(limit), u) && u.hist == []
    ensures match Run(Static(limit), u, es)
      case None => true
      case Some(v) =>
        && (StaticMaps(v.w.m) <==> NoFault(es))
        && (forall e :: Possible(Static(limit), v, e) && e.Faulted? ==> MainEscape(e.x))
  {
    hide Good, Possible, StaticMaps, MainEscape;
    var su := Static(limit);
    if Run(su, u, es).Some? {
      var v := Run(su, u, es).value;
      HistoryGrows(su, u, es);
      GoodTables(limit, v);
      StaticMapsExactly(limit, v.w, v.hist);
      forall e | Possible(su, v, e) && e.Faulted?
        ensures MainEscape(e.x)
      {
        FaultEscapes(limit, v, e);
      }
    }
  }

  lemma GoodTables(limit: nat, u: Whole)
    requires Limits(limit) && Good(Static(limit), u)
    ensures Inv(Static(limit), u.w, u.hist, VMS) && |u.s.vm| == VMS
  {
    hide Inv, Runs.Inv;
    MainGuest(true, limit, 0);
  }

  lemma FaultEscapes(limit: nat, u: Whole, e: Event)
    requires Limits(limit) && Good(Static(limit), u) && Possible(Static(limit), u, e) && e.Faulted?
    ensures MainEscape(e.x)
  {
    hide Inv, Runs.Inv, Translate, Room, H.OnlyFrame, H.FrameClear, MainEscape, Escapes, Served;
    var su := Static(limit);
    GoodTables(limit, u);
    LiveBase(su, u, e.x);
    FaultMeansUngranted(su, u.w, u.hist, VMS, u.s.cur, e.x);
    EscapesExactly(limit, u.s.cur, e.x);
  }

  // As long as nothing faults, the running guest has its own static map and the guests are
  // isolated.
  lemma NoFaultIsolates(limit: nat, u: Whole, es: seq<Event>, x: u32)
    requires Limits(limit) && Good(Static(limit), u) && u.hist == [] && NoFault(es)
    ensures match Run(Static(limit), u, es)
      case None => true
      case Some(v) => Isolated(v.w.m) && (!v.s.idle ==>
          v.s.cur < VMS && Translate(v.w.m, v.s.live.vttbr, x) == StaticMap(VmConfig(v.s.cur), x))
  {
    hide Good, Translate, StaticMap, VmConfig, Isolated;
    var su := Static(limit);
    if Run(su, u, es).Some? {
      var v := Run(su, u, es).value;
      HistoryGrows(su, u, es);
      GoodTables(limit, v);
      StaticMapsExactly(limit, v.w, v.hist);
      IsolatedExactly(limit, v.w, v.hist);
      if !v.s.idle {
        LiveBase(su, v, x);
        MainGuest(true, limit, v.s.cur);
        assert GuestTranslate(v.w.m, v.s.cur, x) == StaticMap(VmConfig(v.s.cur), x);
      }
    }
  }

  // ---------------------------------------------------------------------------------------
  // Private memory
  // ---------------------------------------------------------------------------------------

  // Guest i executes none of the stores of the run.
  ghost predicate NeverStores(su: Setup, u: Whole, es: seq<Event>, i: nat)
    requires Good(su, u)
  {
    es == [] || (
      && NeverStores(su, u, Init(es), i)
      && (Last(es).Accesses? && Last(es).store.Some? ==>
            match Run(su, u, Init(es)) case None => true case Some(v) => v.s.cur != i))
  }

  lemma FrameIsLow(w: World, m: Words, pa: nat)
    requires H.OnlyFrame(w.m, m) && pa >= H.STACK_HYP_BASE
    ensures LoadB(m, pa) == LoadB(w.m, pa)
  {
    LoadBFrame(w.m, m, H.STACK_HYP_BASE - H.FRAME, H.STACK_HYP_BASE, pa);
  }

  // A byte of guest i's own RAM or devices changes only by stores executed while guest i runs,
  // in any run of the whole machine without faults.
  lemma {:induction false} MemoryIsPrivate(limit: nat, u: Whole, es: seq<Event>, i: nat, pa: nat)
    requires Limits(limit) && Good(Static(limit), u) && u.hist == [] && NoFault(es)
    requires i < VMS && PrivatePage(i, pa / 0x1000) && NeverStores(Static(limit), u, es, i)
    ensures match Run(Static(limit), u, es)
      case None => true
      case Some(v) => LoadB(v.w.m, pa) == LoadB(u.w.m, pa)
  {
    hide Good, Possible, Happen, LoadB, PrivatePage;
    var su := Static(limit);
    if es != [] && Run(su, u, es).Some? {
      MemoryIsPrivate(limit, u, Init(es), i, pa);
      HistoryGrows(su, u, Init(es));
      assert Last(es) == es[|es| - 1];
      EventKeepsPrivate(limit, Run(su, u, Init(es)).value, Last(es), i, pa);
    }
  }

  lemma EventKeepsPrivate(limit: nat, u: Whole, e: Event, i: nat, pa: nat)
    requires Limits(limit) && Good(Static(limit), u) && u.hist == [] && Possible(Static(limit), u, e) && !e.Faulted?
    requires i < VMS && PrivatePage(i, pa / 0x1000) && (e.Accesses? && e.store.Some? ==> u.s.cur != i)
    ensures LoadB(Happen(Static(limit), u, e).w.m, pa) == LoadB(u.w.m, pa)
  {
    hide Inv, Runs.Inv, VmConfig, Translate, StaticMap, Next, LoadB, StoreB, H.OnlyFrame;
    match e
    case Handled(step, after) =>
      FrameIsLow(u.w, after, pa);
    case Accesses(x, store) =>
      GoodTables(limit, u);
      StaticMapsExactly(limit, u.w, u.hist);
      MainGuest(true, limit, u.s.cur);
      LiveBase(Static(limit), u, x);
      assert GuestTranslate(u.w.m, u.s.cur, x) == StaticMap(VmConfig(u.s.cur), x);
      if store.Some? {
        var to := Translate(u.w.m, u.s.live.vttbr, x).value;
        StoreMisses(u.s.cur, i, x, to, pa);
        LoadStoreB(u.w.m, to, store.value, pa);
      }
  }

  // Where the base maps stay clear of the pool, a byte of a page allocated to guest i changes
  // only by stores executed while guest i runs, in any run of the whole machine, whatever faults.
  lemma {:induction false} PoolMemoryIsPrivate(su: Setup, u: Whole, es: seq<Event>, i: nat, pa: nat)
    requires Good(su, u) && PoolClear(su) && OnPageOf(su, u.hist, i, pa) && NeverStores(su, u, es, i)
    requires H.STACK_HYP_BASE <= su.memBase
    ensures match Run(su, u, es)
      case None => true
      case Some(v) => LoadB(v.w.m, pa) == LoadB(u.w.m, pa) && OnPageOf(su, v.hist, i, pa)
  {
    hide Good, Possible, Happen, LoadB, PoolClear, OnPageOf;
    if es != [] && Run(su, u, es).Some? {
      PoolMemoryIsPrivate(su, u, Init(es), i, pa);
      EventKeepsPage(su, Run(su, u, Init(es)).value, Last(es), i, pa);
    }
  }

  lemma EventKeepsPage(su: Setup, u: Whole, e: Event, i: nat, pa: nat)
    requires Good(su, u) && Possible(su, u, e) && PoolClear(su) && OnPageOf(su, u.hist, i, pa)
    requires H.STACK_HYP_BASE <= su.memBase && (e.Accesses? && e.store.Some? ==> u.s.cur != i)
    ensures LoadB(Happen(su, u, e).w.m, pa) == LoadB(u.w.m, pa) && OnPageOf(su, Happen(su, u, e).hist, i, pa)
  {
    hide Inv, Runs.Inv, Translate, Next, LoadB, StoreB, H.OnlyFrame, PoolClear, OnPageOf, NewPageSpec, StoreVia,
      Grantable, H.FrameClear;
    InvParts(su, u.w, u.hist, |su.guests|);
    AbovePool(su, u.hist, i, pa);
    match e
    case Handled(step, after) =>
      FrameIsLow(u.w, after, pa);
    case Faulted(hsr, x, pushed) =>
      FrameIsLow(u.w, pushed, pa);
      PushKeepsInv(su, u.w, pushed, u.hist);
      var g := FaultGrant(u.s.cur, x);
      GrantMisses(su, u.w.(m := pushed), u.hist, |su.guests|, g, i, pa);
      GrantableSize(su, u.hist, |su.guests|, g);
      StillOnPage(su, u.hist, g, i, pa);
    case Accesses(x, store) =>
      if store.Some? {
        LiveBase(su, u, x);
        SameStore(u.w.m, u.s.live.vttbr, su.guests[u.s.cur].ptBase, x, store.value);
        OthersMiss(su, u.w, u.hist, |su.guests|, i, u.s.cur, x, store.value, pa);
      }
  }

  lemma GrantableSize(su: Setup, hist: seq<Grant>, n: nat, g: Grant)
    requires Grantable(su, hist, n, g)
    ensures |hist| < PAGE_COUNT
  {
  }

  lemma AbovePool(su: Setup, hist: seq<Grant>, i: nat, pa: nat)
    requires OnPageOf(su, hist, i, pa) && su.memBase % 0x1000 == 0
    ensures pa >= su.memBase
  {
  }
}
