// vmm/memory_allocator.c: the page pool, without the page tables.
module Allocator {
  import opened Options
  import opened BitOps

  // PAGE_COUNT and PAGE_SIZE of memory_allocator.h: 512 MiB of 4 KiB pages.
  const PAGE_COUNT: nat := 0x2_0000
  const PAGE_SIZE: nat := 0x1000

  // target_vm[i] == -1, or the three entries of an allocated page.
  datatype Slot = Free | Owned(vm: nat, ipa: u32, high: u32)

  // `last` is the static cursor last_i.
  datatype Pool = Pool(slots: seq<Slot>, last: nat, count: nat)

  ghost function OwnedSlots(slots: seq<Slot>): set<nat> {
    set i | 0 <= i < |slots| && slots[i].Owned?
  }

  ghost predicate ValidPool(p: Pool) {
    |p.slots| == PAGE_COUNT && p.last < PAGE_COUNT && p.count == |OwnedSlots(p.slots)|
  }

  // ---------------------------------------------------------------------------------------
  // The scan
  // ---------------------------------------------------------------------------------------

  // The slot examined in iteration i.
  function Probe(last: nat, i: nat): nat
    requires last < PAGE_COUNT && i <= PAGE_COUNT
  {
    if last + 1 + i < PAGE_COUNT then last + 1 + i else last + 1 + i - PAGE_COUNT
  }

  lemma NextProbe(last: nat, i: nat, at: nat)
    requires last < PAGE_COUNT && i < PAGE_COUNT && at == if i == 0 then last else Probe(last, i - 1)
    ensures at < PAGE_COUNT && Probe(at, 0) == Probe(last, i)
  {
  }

  // The iteration that examines slot s.
  function Turn(last: nat, s: nat): nat
    requires last < PAGE_COUNT && s < PAGE_COUNT
  {
    if s > last then s - last - 1 else s + PAGE_COUNT - last - 1
  }

  // The scan examines every slot exactly once.
  lemma EverySlotOnce(last: nat, s: nat, i: nat)
    requires last < PAGE_COUNT && s < PAGE_COUNT && i < PAGE_COUNT
    ensures Turn(last, s) < PAGE_COUNT
    ensures Probe(last, i) == s <==> i == Turn(last, s)
  {
  }

  // The first free slot from iteration i on.
  function FindFree(slots: seq<Slot>, last: nat, i: nat): Option<nat>
    requires |slots| == PAGE_COUNT && last < PAGE_COUNT && i <= PAGE_COUNT
    decreases PAGE_COUNT - i
  {
    if i == PAGE_COUNT then None
    else if slots[Probe(last, i)].Free? then Some(Probe(last, i))
    else FindFree(slots, last, i + 1)
  }

  lemma FindFreeStep(slots: seq<Slot>, last: nat, i: nat)
    requires |slots| == PAGE_COUNT && last < PAGE_COUNT && i <= PAGE_COUNT
    ensures FindFree(slots, last, i)
         == if i == PAGE_COUNT then None
            else if slots[Probe(last, i)].Free? then Some(Probe(last, i)) else FindFree(slots, last, i + 1)
  {
  }

  lemma {:induction false} FindFreeIs(slots: seq<Slot>, last: nat, i: nat)
    requires |slots| == PAGE_COUNT && last < PAGE_COUNT && i <= PAGE_COUNT
    ensures match FindFree(slots, last, i)
      case None => forall s :: 0 <= s < PAGE_COUNT && i <= Turn(last, s) ==> slots[s].Owned?
      case Some(f) =>
        && f < PAGE_COUNT && slots[f].Free? && i <= Turn(last, f)
        && forall s :: 0 <= s < PAGE_COUNT && i <= Turn(last, s) < Turn(last, f) ==> slots[s].Owned?
    decreases PAGE_COUNT - i
  {
    if i < PAGE_COUNT {
      EverySlotOnce(last, Probe(last, i), i);
      if slots[Probe(last, i)].Owned? {
        FindFreeIs(slots, last, i + 1);
        forall s | 0 <= s < PAGE_COUNT && i <= Turn(last, s)
          ensures s == Probe(last, i) || i + 1 <= Turn(last, s)
        {
          EverySlotOnce(last, s, i);
        }
      }
    }
  }

  ghost function Below(n: nat): (s: set<nat>)
    ensures forall i: nat :: i in s <==> i < n
    ensures |s| == n
  {
    if n == 0 then {} else Below(n - 1) + {n - 1}
  }

  lemma SubsetSize<T>(a: set<T>, b: set<T>)
    requires a <= b
    ensures |a| <= |b|
    ensures |a| == |b| ==> a == b
  {
    assert b == a + (b - a);
  }

  lemma FreeMeansFewer(slots: seq<Slot>, f: nat)
    requires |slots| == PAGE_COUNT && f < PAGE_COUNT && slots[f].Free?
    ensures |OwnedSlots(slots)| < PAGE_COUNT
  {
    var all := Below(PAGE_COUNT);
    SubsetSize(OwnedSlots(slots), all);
    assert f in all && f !in OwnedSlots(slots);
  }

  lemma AllOwned(slots: seq<Slot>)
    requires |slots| == PAGE_COUNT && forall s :: 0 <= s < PAGE_COUNT ==> slots[s].Owned?
    ensures |OwnedSlots(slots)| == PAGE_COUNT
  {
    assert OwnedSlots(slots) == Below(PAGE_COUNT);
  }

  lemma OwnedAtMost(slots: seq<Slot>)
    requires |slots| == PAGE_COUNT
    ensures |OwnedSlots(slots)| <= PAGE_COUNT
  {
    SubsetSize(OwnedSlots(slots), Below(PAGE_COUNT));
  }

  // The scan fails exactly when every page is allocated: `count` tells.
  lemma SucceedsBelowCount(p: Pool)
    requires ValidPool(p)
    ensures p.count <= PAGE_COUNT
    ensures FindFree(p.slots, p.last, 0).Some? <==> p.count < PAGE_COUNT
  {
    hide FindFree, Turn, Probe, OwnedSlots;
    FindFreeIs(p.slots, p.last, 0);
    OwnedAtMost(p.slots);
    match FindFree(p.slots, p.last, 0)
    case Some(f) => FreeMeansFewer(p.slots, f);
    case None =>
      assert forall s :: 0 <= s < PAGE_COUNT ==> 0 <= Turn(p.last, s);
      AllOwned(p.slots);
  }

  // ---------------------------------------------------------------------------------------
  // Allocation
  // ---------------------------------------------------------------------------------------

  datatype Request = Request(vm: nat, ipa: u32, high: u32)

  function OwnedBy(r: Request): Slot {
    Owned(r.vm, r.ipa, r.high)
  }

  function Take(p: Pool, f: nat, r: Request): Pool
    requires f < |p.slots|
  {
    Pool(p.slots[f := OwnedBy(r)], f, p.count + 1)
  }

  function Allocate(p: Pool, r: Request): Option<Pool>
    requires |p.slots| == PAGE_COUNT && p.last < PAGE_COUNT
  {
    FindFreeIs(p.slots, p.last, 0);
    match FindFree(p.slots, p.last, 0)
    case None => None
    case Some(f) => Some(Take(p, f, r))
  }

  lemma AllocateKeepsValid(p: Pool, r: Request)
    requires ValidPool(p) && Allocate(p, r).Some?
    ensures ValidPool(Allocate(p, r).value)
  {
    FindFreeIs(p.slots, p.last, 0);
    var f := FindFree(p.slots, p.last, 0).value;
    assert OwnedSlots(Take(p, f, r).slots) == OwnedSlots(p.slots) + {f};
  }

  // memory_allocator_init, with last_i at its initial value.
  function EmptyPool(): Pool {
    Pool(seq(PAGE_COUNT, _ => Free), 0, 0)
  }

  function AllocateAll(rs: seq<Request>): (p: Option<Pool>)
    ensures p.Some? ==> |p.value.slots| == PAGE_COUNT && p.value.last < PAGE_COUNT
  {
    if rs == [] then Some(EmptyPool())
    else match AllocateAll(rs[..|rs| - 1])
    case None => None
    case Some(p) =>
      FindFreeIs(p.slots, p.last, 0);
      Allocate(p, rs[|rs| - 1])
  }

  // The slot of the k-th allocation of a run, k from 1.
  function SlotOf(k: nat): nat
    requires k <= PAGE_COUNT
  {
    if k == PAGE_COUNT then 0 else k
  }

  // Which request a slot serves after n allocations, by number from 1; 0 for none.
  function Server(s: nat, n: nat): nat
    requires s < PAGE_COUNT
  {
    if s == 0 then (if n < PAGE_COUNT then 0 else PAGE_COUNT) else if s <= n then s else 0
  }

  lemma FirstProbe(slots: seq<Slot>, last: nat)
    requires |slots| == PAGE_COUNT && last < PAGE_COUNT && slots[Probe(last, 0)].Free?
    ensures FindFree(slots, last, 0) == Some(Probe(last, 0))
  {
  }

  lemma EmptyIsValid()
    ensures ValidPool(EmptyPool())
  {
    assert OwnedSlots(EmptyPool().slots) == {};
  }

  // The pool after the first n of a run of requests.
  ghost predicate After(p: Pool, rs: seq<Request>, n: nat)
    requires n <= |rs|
  {
    && ValidPool(p) && p.count == n <= PAGE_COUNT && p.last == SlotOf(n)
    && (forall s :: 0 <= s < PAGE_COUNT ==>
          p.slots[s] == if Server(s, n) == 0 then Free else OwnedBy(rs[Server(s, n) - 1]))
  }

  lemma NextAllocation(p: Pool, rs: seq<Request>)
    requires rs != [] && After(p, rs, |rs| - 1)
    ensures match Allocate(p, rs[|rs| - 1])
      case None => |rs| == PAGE_COUNT + 1
      case Some(q) => After(q, rs, |rs|)
  {
    hide FindFree, OwnedSlots;
    var n := |rs| - 1;
    SucceedsBelowCount(p);
    if n < PAGE_COUNT {
      FirstProbe(p.slots, p.last);
      AllocateKeepsValid(p, rs[n]);
    }
  }

  // Over every run from initialisation: PAGE_COUNT allocations succeed and the next one fails;
  // the k-th takes slot k mod PAGE_COUNT, which is the first slot its scan examines; nothing
  // else is owned.
  lemma {:induction false} RunOfAllocations(rs: seq<Request>)
    ensures AllocateAll(rs).Some? <==> |rs| <= PAGE_COUNT
    ensures AllocateAll(rs).Some? ==>
      var p := AllocateAll(rs).value;
      After(p, rs, |rs|)
      && (|rs| < PAGE_COUNT ==> FindFree(p.slots, p.last, 0) == Some(SlotOf(|rs| + 1)) == Some(Probe(p.last, 0)))
  {
    hide FindFree, OwnedSlots, Allocate;
    if rs == [] {
      EmptyIsValid();
    } else {
      var n := |rs| - 1;
      RunOfAllocations(rs[..n]);
      if AllocateAll(rs[..n]).Some? {
        NextAllocation(AllocateAll(rs[..n]).value, rs);
      }
    }
    if |rs| < PAGE_COUNT {
      FirstProbe(AllocateAll(rs).value.slots, AllocateAll(rs).value.last);
    }
  }

  // The address the allocator returns for slot f.
  function PageAddress(memBase: nat, f: nat): nat {
    memBase + f * PAGE_SIZE
  }

  // Addresses of a pool that ends below 4 GiB: page-aligned, inside the pool, one per slot.
  lemma Addresses(memBase: nat, f: nat, g: nat)
    requires memBase % PAGE_SIZE == 0 && memBase + PAGE_COUNT * PAGE_SIZE <= 0x1_0000_0000
    requires f < PAGE_COUNT && g < PAGE_COUNT
    ensures PageAddress(memBase, f) % PAGE_SIZE == 0
    ensures memBase <= PageAddress(memBase, f)
      && PageAddress(memBase, f) + PAGE_SIZE <= memBase + PAGE_COUNT * PAGE_SIZE
    ensures PageAddress(memBase, f) == PageAddress(memBase, g) ==> f == g
    ensures PageAddress(memBase, f) / PAGE_SIZE == memBase / PAGE_SIZE + f
  {
    DivUnique(PageAddress(memBase, f), PAGE_SIZE, memBase / PAGE_SIZE + f, 0);
  }

  // memory_allocator_page_exist
  predicate PageExists(slots: seq<Slot>, r: Request) {
    exists i :: 0 <= i < |slots| && slots[i] == OwnedBy(r)
  }

  // ---------------------------------------------------------------------------------------
  // vmm/memory_allocator.c
  // ---------------------------------------------------------------------------------------

  function SlotAt(vm: int, ipa: u32, high: u32): Slot {
    if vm < 0 then Free else Owned(vm, ipa, high)
  }

  class MemoryAllocator {
    const targetVm: array<int>
    const ipa: array<u32>
    const highIpa: array<u32>
    var memBase: u32
    var count: nat
    var lastI: nat

    // The zeroed global and the static cursor.
    constructor ()
      ensures Valid() && lastI == 0 && fresh(Objs())
    {
      targetVm := new int[PAGE_COUNT](_ => 0);
      ipa, highIpa := new u32[PAGE_COUNT](_ => 0), new u32[PAGE_COUNT](_ => 0);
      memBase, count, lastI := 0, 0, 0;
    }

    ghost function Objs(): set<object> {
      {this, targetVm, ipa, highIpa}
    }

    ghost predicate Shaped() {
      && targetVm.Length == PAGE_COUNT && ipa.Length == PAGE_COUNT && highIpa.Length == PAGE_COUNT
      && ipa != highIpa
    }

    ghost predicate Valid()
      reads this, targetVm
    {
      Shaped() && lastI < PAGE_COUNT && forall i :: 0 <= i < PAGE_COUNT ==> -1 <= targetVm[i]
    }

    ghost function Slots(): (s: seq<Slot>)
      requires Shaped()
      reads targetVm, ipa, highIpa
      ensures |s| == PAGE_COUNT && forall i :: 0 <= i < PAGE_COUNT ==> s[i] == SlotAt(targetVm[i], ipa[i], highIpa[i])
    {
      seq(PAGE_COUNT, i requires 0 <= i < PAGE_COUNT reads targetVm, ipa, highIpa =>
          SlotAt(targetVm[i], ipa[i], highIpa[i]))
    }

    ghost function View(): Pool
      requires Shaped()
      reads Objs()
    {
      Pool(Slots(), lastI, count)
    }

    // memory_allocator_init
    method Init(base: u32)
      requires Valid()
      modifies this`memBase, this`count, targetVm
      ensures Valid() && memBase == base
      ensures View() == EmptyPool().(last := old(lastI))
    {
      for i := 0 to PAGE_COUNT
        invariant forall k :: 0 <= k < i ==> targetVm[k] == -1
        invariant Valid()
      {
        targetVm[i] := -1;
      }
      memBase := base;
      count := 0;
    }

    // memory_allocator_page_exist
    method PageExist(r: Request) returns (found: bool)
      requires Valid()
      ensures found == PageExists(View().slots, r)
    {
      ghost var slots := View().slots;
      for i := 0 to PAGE_COUNT
        invariant forall k :: 0 <= k < i ==> slots[k] != OwnedBy(r)
      {
        var equalVmId := targetVm[i] == r.vm;
        var equalIpa := ipa[i] == r.ipa;
        var equalHighIpa := highIpa[i] == r.high;
        if equalVmId && equalIpa && equalHighIpa {
          assert slots[i] == OwnedBy(r);
          return true;
        }
      }
      found := false;
    }

    // The cursor moves on, around the end.
    method NextSlot()
      requires Valid()
      modifies this`lastI
      ensures Valid() && lastI == Probe(old(lastI), 0)
    {
      lastI := lastI + 1;
      if lastI >= PAGE_COUNT {
        lastI := 0;
      }
    }

    // The branch of the scan that found a free slot.
    method Occupy(r: Request)
      requires Valid()
      modifies this`count, targetVm, ipa, highIpa
      ensures Valid() && View() == Take(old(View()), lastI, r)
    {
      ghost var slots := Slots();
      targetVm[lastI] := r.vm;
      ipa[lastI] := r.ipa;
      highIpa[lastI] := r.high;
      count := count + 1;
      assert Slots() == slots[lastI := OwnedBy(r)];
    }

    // The scan of memory_allocator_new_page up to the page-table calls; false: the pool is full
    // and the program is left.
    method Claim(r: Request) returns (pa: int, ok: bool)
      requires Valid()
      modifies this, targetVm, ipa, highIpa
      ensures Valid() && memBase == old(memBase)
      ensures match Allocate(old(View()), r)
        case None => !ok
        case Some(p) => ok && View() == p && pa == PageAddress(memBase, p.last)
    {
      hide Slots, Turn, Probe, PageAddress, FindFree;
      ghost var p := View();
      FindFreeIs(p.slots, p.last, 0);
      pa := 0;
      for i := 0 to PAGE_COUNT
        invariant Valid() && memBase == old(memBase) && View() == p.(last := lastI)
        invariant lastI == if i == 0 then p.last else Probe(p.last, i - 1)
        invariant FindFree(p.slots, p.last, 0) == FindFree(p.slots, p.last, i)
      {
        NextProbe(p.last, i, lastI);
        FindFreeStep(p.slots, p.last, i);
        NextSlot();
        assert p.slots[lastI] == SlotAt(targetVm[lastI], ipa[lastI], highIpa[lastI]);

        // The first slot without an owner is taken.
        if targetVm[lastI] == -1 {
          Occupy(r);
          return PageAddress(memBase, lastI), true;
        }
      }
      FindFreeStep(p.slots, p.last, PAGE_COUNT);
      ok := false;
    }
  }
}
