// The virtual interrupt distributor (v_devices/vdev_gic2_dist.c): the map from virtual to
// physical interrupts, and which of them are forwarded to the physical distributor.
module VirtualDistributor {
  import opened Options
  import opened BitOps

  const VIRQS: nat := 64

  // pid -1: not mapped.
  datatype Virq = Virq(en: bool, pid: int)

  const UNMAPPED: Virq := Virq(false, -1)

  function Pids(virq: seq<Virq>): (r: seq<int>)
    ensures |r| == |virq| && forall i :: 0 <= i < |r| ==> r[i] == virq[i].pid
  {
    seq(|virq|, i requires 0 <= i < |virq| => virq[i].pid)
  }

  // vdev_gic2_dist_irq_to_virq: the lowest virtual interrupt mapped to pid.
  function IrqToVirq(pids: seq<int>, pid: int, k: nat): Option<nat>
    requires k <= |pids|
    decreases |pids| - k
  {
    if k == |pids| then None
    else if pids[k] == pid then Some(k)
    else IrqToVirq(pids, pid, k + 1)
  }

  lemma {:induction false} IrqToVirqIs(pids: seq<int>, pid: int, k: nat)
    requires k <= |pids|
    ensures match IrqToVirq(pids, pid, k)
      case None => forall j :: k <= j < |pids| ==> pids[j] != pid
      case Some(v) => k <= v < |pids| && pids[v] == pid && forall j :: k <= j < v ==> pids[j] != pid
    decreases |pids| - k
  {
    if k < |pids| && pids[k] != pid {
      IrqToVirqIs(pids, pid, k + 1);
    }
  }

  // Where no physical interrupt is mapped twice, irq_to_virq is the inverse of the mapping.
  lemma IrqToVirqInverts(pids: seq<int>, pid: int, v: nat)
    requires forall i, j :: 0 <= i < j < |pids| && pids[i] == pid ==> pids[j] != pid
    requires v < |pids|
    ensures IrqToVirq(pids, pid, 0) == Some(v) <==> pids[v] == pid
  {
    IrqToVirqIs(pids, pid, 0);
  }

  // ---------------------------------------------------------------------------------------
  // Enable and clear writes
  // ---------------------------------------------------------------------------------------

  // What is left after a call: nothing if it left the program.
  datatype Outcome = Exit | Done(virq: seq<Virq>, forwarded: set<int>)

  // dev_gic2_dist_enable_irq and dev_gic2_dist_disable_irq know interrupts 0 to 63.
  predicate Physical(pid: int) {
    0 <= pid < 64
  }

  function Forward(forwarded: set<int>, pid: int, on: bool): set<int> {
    if pid == -1 then forwarded else if on then forwarded + {pid} else forwarded - {pid}
  }

  predicate DataBit(data: u32, i: nat)
    requires i < 32
  {
    Bit(data, i)
  }

  // The first n iterations of the enable (on) or clear loop of register `reg`.
  function ApplyBits(virq: seq<Virq>, forwarded: set<int>, reg: nat, data: u32, on: bool, n: nat): (r: Outcome)
    requires |virq| == VIRQS && reg < 2 && n <= 32
    ensures r.Done? ==> |r.virq| == VIRQS
  {
    if n == 0 then Done(virq, forwarded)
    else match ApplyBits(virq, forwarded, reg, data, on, n - 1)
    case Exit => Exit
    case Done(v, f) =>
      var ir := 32 * reg + (n - 1);
      if !DataBit(data, n - 1) then Done(v, f)
      else if v[ir].pid != -1 && !Physical(v[ir].pid) then Exit
      else Done(v[ir := v[ir].(en := on)], Forward(f, v[ir].pid, on))
  }

  // Bit i of the written word addresses virtual interrupt ir.
  predicate Hits(reg: nat, data: u32, n: nat, ir: nat)
    requires n <= 32
  {
    32 * reg <= ir < 32 * reg + n && DataBit(data, ir - 32 * reg)
  }

  lemma {:induction false} BitsMeaning(virq: seq<Virq>, forwarded: set<int>, reg: nat, data: u32, on: bool, n: nat)
    requires |virq| == VIRQS && reg < 2 && n <= 32
    requires ApplyBits(virq, forwarded, reg, data, on, n).Done?
    ensures var r := ApplyBits(virq, forwarded, reg, data, on, n);
      && (forall ir :: 0 <= ir < VIRQS ==>
            r.virq[ir] == if Hits(reg, data, n, ir) then virq[ir].(en := on) else virq[ir])
      && (forall pid :: pid in r.forwarded <==>
            if exists ir :: 0 <= ir < VIRQS && Hits(reg, data, n, ir) && virq[ir].pid == pid != -1 then on
            else pid in forwarded)
  {
    hide DataBit;
    if n > 0 {
      BitsMeaning(virq, forwarded, reg, data, on, n - 1);
      var before := ApplyBits(virq, forwarded, reg, data, on, n - 1);
      var ir0 := 32 * reg + (n - 1);
      assert forall ir: nat ::
          Hits(reg, data, n, ir) <==> Hits(reg, data, n - 1, ir) || (ir == ir0 && DataBit(data, n - 1));
    }
  }

  // The loop leaves the program exactly when it meets a mapping to no physical interrupt.
  lemma {:induction false} BitsExit(virq: seq<Virq>, forwarded: set<int>, reg: nat, data: u32, on: bool, n: nat)
    requires |virq| == VIRQS && reg < 2 && n <= 32
    ensures ApplyBits(virq, forwarded, reg, data, on, n).Exit? <==>
      exists ir :: 0 <= ir < VIRQS && Hits(reg, data, n, ir) && virq[ir].pid != -1 && !Physical(virq[ir].pid)
  {
    hide DataBit;
    if n > 0 {
      BitsExit(virq, forwarded, reg, data, on, n - 1);
      var ir0 := 32 * reg + (n - 1);
      assert forall ir: nat ::
          Hits(reg, data, n, ir) <==> Hits(reg, data, n - 1, ir) || (ir == ir0 && DataBit(data, n - 1));
      if ApplyBits(virq, forwarded, reg, data, on, n - 1).Done? {
        BitsMeaning(virq, forwarded, reg, data, on, n - 1);
      }
    }
  }

  // Word n of the enable or clear registers names virtual interrupt ir: bit ir % 32 is set.
  predicate Names(n: nat, data: u32, ir: nat) {
    ir / 32 == n && Bit(data, ir % 32)
  }

  // Every interrupt named by a word is enabled, and the physical interrupts they are mapped to
  // are forwarded; nothing else has changed.
  ghost predicate Enables(n: nat, data: u32, virq: seq<Virq>, f: set<int>, virq': seq<Virq>, f': set<int>) {
    && |virq| == |virq'| == VIRQS
    && (forall ir :: 0 <= ir < VIRQS ==>
          virq'[ir] == if Names(n, data, ir) then Virq(true, virq[ir].pid) else virq[ir])
    && (forall pid :: pid in f' <==>
          pid in f || exists ir :: 0 <= ir < VIRQS && Names(n, data, ir) && virq[ir].pid == pid != -1)
  }

  // Every interrupt named by a word is disabled, and the physical interrupts they are mapped to
  // are not forwarded; nothing else has changed.
  ghost predicate Disables(n: nat, data: u32, virq: seq<Virq>, f: set<int>, virq': seq<Virq>, f': set<int>) {
    && |virq| == |virq'| == VIRQS
    && (forall ir :: 0 <= ir < VIRQS ==>
          virq'[ir] == if Names(n, data, ir) then Virq(false, virq[ir].pid) else virq[ir])
    && (forall pid :: pid in f' <==>
          pid in f && !exists ir :: 0 <= ir < VIRQS && Names(n, data, ir) && virq[ir].pid == pid != -1)
  }

  // A word names an interrupt that is mapped to none the physical distributor has.
  ghost predicate NamesUnphysical(n: nat, data: u32, virq: seq<Virq>) {
    exists ir :: 0 <= ir < |virq| && Names(n, data, ir) && virq[ir].pid != -1 && !(0 <= virq[ir].pid < 64)
  }

  lemma NamesIsHits(n: nat, data: u32, ir: nat)
    ensures Hits(n, data, 32, ir) <==> Names(n, data, ir)
  {
    hide Bit;
    if 32 * n <= ir < 32 * n + 32 {
      DivUnique(ir, 32, n, ir - 32 * n);
    }
  }

  lemma WordApplied(virq: seq<Virq>, forwarded: set<int>, n: nat, data: u32)
    requires |virq| == VIRQS && n < 2
    ensures match ApplyBits(virq, forwarded, n, data, true, 32)
      case Exit => NamesUnphysical(n, data, virq)
      case Done(v, f) => !NamesUnphysical(n, data, virq) && Enables(n, data, virq, forwarded, v, f)
    ensures match ApplyBits(virq, forwarded, n, data, false, 32)
      case Exit => NamesUnphysical(n, data, virq)
      case Done(v, f) => !NamesUnphysical(n, data, virq) && Disables(n, data, virq, forwarded, v, f)
  {
    hide Names, Hits, ApplyBits;
    forall ir | 0 <= ir < VIRQS
      ensures Hits(n, data, 32, ir) <==> Names(n, data, ir)
    {
      NamesIsHits(n, data, ir);
    }
    BitsExit(virq, forwarded, n, data, true, 32);
    BitsExit(virq, forwarded, n, data, false, 32);
    if ApplyBits(virq, forwarded, n, data, true, 32).Done? {
      BitsMeaning(virq, forwarded, n, data, true, 32);
    }
    if ApplyBits(virq, forwarded, n, data, false, 32).Done? {
      BitsMeaning(virq, forwarded, n, data, false, 32);
    }
  }

  // What a write does, by the distributor register it addresses.
  datatype WriteKind = Ignored | Leaves | SetsEnable(on: bool) | Bits(reg: nat, on: bool)

  // Enable and clear registers above 1 address interrupts the distributor does not have.
  predicate InScope(offset: u32) {
    && (0x100 <= offset <= 0x17C ==> offset < 0x108)
    && (0x180 <= offset <= 0x1FC ==> offset < 0x188)
  }

  function KindOf(offset: u32, data: u32): WriteKind {
    if offset == 0 then
      var g0, g1 := Bit(data, 0), Bit(data, 1);
      if g0 && g1 then Leaves else SetsEnable(g0 || g1)
    else if offset == 0x80 then Ignored
    else if 0x100 <= offset <= 0x17C then Bits((offset - 0x100) / 4, true)
    else if 0x180 <= offset <= 0x1FC then Bits((offset - 0x180) / 4, false)
    else if 0x400 <= offset <= 0x7F8 then Ignored
    else if 0x800 <= offset <= 0x8F8 then (if (offset - 0x800) / 4 <= 7 then Leaves else Ignored)
    else if 0xC00 <= offset <= 0xCFC then Ignored
    else if offset == 0xF00 then
      if data / 0x100_0000 % 4 == 0 && !Bit(data, 16) then Ignored else Leaves
    else Leaves
  }

  // The bits and fields vdev_gic2_dist_write extracts outside its loops.
  lemma WriteFields(data: u32)
    ensures GetBit(32, data, 0) != 0 <==> Bit(data, 0)
    ensures GetBit(32, data, 1) != 0 <==> Bit(data, 1)
    ensures GetField(32, data, 25, 24) == data / 0x100_0000 % 4
    ensures GetBit(32, GetField(32, data, 23, 16), 0) != 0 <==> Bit(data, 16)
  {
    hide Bit, GetBit, GetField, Pow2;
    Powers();
    GetBitIs(32, data, 0);
    GetBitIs(32, data, 1);
    GetIs(32, data, 25, 24, 0x100_0000, 4);
    GetBitIs(32, GetField(32, data, 23, 16), 0);
    GetFieldBit(32, data, 23, 16, 0);
  }

  // The physical distributor, as the set of interrupts enabled in it.
  class GicDist {
    var enabled: set<int>

    constructor ()
      ensures enabled == {}
    {
      enabled := {};
    }

    // dev_gic2_dist_enable_irq; false: it left the program.
    method EnableIrq(pid: int) returns (ok: bool)
      modifies this
      ensures ok == Physical(pid) && enabled == if ok then old(enabled) + {pid} else old(enabled)
    {
      ok := 0 <= pid <= 63;
      if ok {
        enabled := enabled + {pid};
      }
    }

    // dev_gic2_dist_disable_irq
    method DisableIrq(pid: int) returns (ok: bool)
      modifies this
      ensures ok == Physical(pid) && enabled == if ok then old(enabled) - {pid} else old(enabled)
    {
      ok := 0 <= pid <= 63;
      if ok {
        enabled := enabled - {pid};
      }
    }
  }

  class VDist {
    var en: bool
    const virq: array<Virq>
    const sys: GicDist

    // vdev_gic2_dist_init
    constructor (sysDist: GicDist)
      ensures virq.Length == VIRQS && fresh(virq) && sys == sysDist && !en
      ensures forall i :: 0 <= i < VIRQS ==> virq[i] == UNMAPPED
    {
      en := false;
      virq := new Virq[VIRQS](_ => UNMAPPED);
      sys := sysDist;
    }

    // vdev_gic2_dist_map_virq
    method MapVirq(vid: nat, pid: int)
      requires vid < virq.Length
      modifies virq
      ensures virq[..] == old(virq[..])[vid := old(virq[vid]).(pid := pid)]
    {
      virq[vid] := virq[vid].(pid := pid);
    }

    // vdev_gic2_dist_irq_to_virq
    method IrqToVirqCode(pid: int) returns (v: int)
      ensures match IrqToVirq(Pids(virq[..]), pid, 0)
        case None => v == -1
        case Some(k) => v == k < virq.Length
    {
      IrqToVirqIs(Pids(virq[..]), pid, 0);
      for i := 0 to virq.Length
        invariant forall j :: 0 <= j < i ==> virq[j].pid != pid
      {
        if virq[i].pid == pid {
          return i;
        }
      }
      v := -1;
    }

    // The loops over one enable or clear register; false: the program was left.
    method WriteBits(reg: nat, data: u32, on: bool) returns (ok: bool)
      requires virq.Length == VIRQS && reg < 2
      modifies virq, sys
      ensures match ApplyBits(old(virq[..]), old(sys.enabled), reg, data, on, 32)
        case Exit => !ok
        case Done(v, f) => ok && virq[..] == v && sys.enabled == f
    {
      hide Bit, GetBit;
      ok := true;
      var irBase := 32 * reg;
      for i := 0 to 32
        invariant ok ==> ApplyBits(old(virq[..]), old(sys.enabled), reg, data, on, i) == Done(virq[..], sys.enabled)
        invariant !ok ==> ApplyBits(old(virq[..]), old(sys.enabled), reg, data, on, i) == Exit
      {
        GetBitIs(32, data, i);
        if ok && GetBit(32, data, i) != 0 {
          ghost var v, f := virq[..], sys.enabled;
          var ir := irBase + i;
          virq[ir] := virq[ir].(en := on);
          assert virq[..] == v[ir := v[ir].(en := on)];
          var pid := virq[ir].pid;
          if pid != -1 {
            if on {
              ok := sys.EnableIrq(pid);
            } else {
              ok := sys.DisableIrq(pid);
            }
          }
        }
      }
    }

    // vdev_gic2_dist_write; false: the program was left.
    method Write(offset: u32, data: u32) returns (ok: bool)
      requires virq.Length == VIRQS && InScope(offset)
      modifies this, virq, sys
      ensures match KindOf(offset, data)
        case Ignored => ok && virq[..] == old(virq[..]) && sys.enabled == old(sys.enabled) && en == old(en)
        case Leaves => !ok
        case SetsEnable(on) => ok && virq[..] == old(virq[..]) && sys.enabled == old(sys.enabled) && en == on
        case Bits(reg, on) =>
          && en == old(en) && reg < 2
          && match ApplyBits(old(virq[..]), old(sys.enabled), reg, data, on, 32)
             case Exit => !ok
             case Done(v, f) => ok && virq[..] == v && sys.enabled == f
      ensures 0x100 <= offset < 0x108 ==>
        && (ok <==> !NamesUnphysical((offset - 0x100) / 4, data, old(virq[..])))
        && (ok ==> Enables((offset - 0x100) / 4, data, old(virq[..]), old(sys.enabled), virq[..], sys.enabled))
      ensures 0x180 <= offset < 0x188 ==>
        && (ok <==> !NamesUnphysical((offset - 0x180) / 4, data, old(virq[..])))
        && (ok ==> Disables((offset - 0x180) / 4, data, old(virq[..]), old(sys.enabled), virq[..], sys.enabled))
      ensures !(0x100 <= offset < 0x108 || 0x180 <= offset < 0x188) && ok ==>
        virq[..] == old(virq[..]) && sys.enabled == old(sys.enabled)
      ensures !(0x100 <= offset < 0x108 || 0x180 <= offset < 0x188) ==>
        (ok <==>
         || (offset == 0 && !(Bit(data, 0) && Bit(data, 1)))
         || offset == 0x80 || 0x400 <= offset <= 0x7F8 || 0x820 <= offset <= 0x8F8 || 0xC00 <= offset <= 0xCFC
         || (offset == 0xF00 && data / 0x100_0000 % 4 == 0 && !Bit(data, 16)))
      ensures ok ==> en == if offset == 0 then Bit(data, 0) || Bit(data, 1) else old(en)
    {
      hide Bit, GetBit, GetField, ApplyBits, Enables, Disables, NamesUnphysical;
      WriteFields(data);
      ok := true;
      if offset == 0 {
        var group0En := GetBit(32, data, 0) != 0;
        var group1En := GetBit(32, data, 1) != 0;
        if group0En && group1En {
          ok := false;
        } else if group0En || group1En {
          en := true;
        } else {
          en := false;
        }
      } else if offset == 0x80 {
      } else if offset >= 0x100 && offset <= 0x17C {
        WordApplied(virq[..], sys.enabled, (offset - 0x100) / 4, data);
        ok := WriteBits((offset - 0x100) / 4, data, true);
      } else if offset >= 0x180 && offset <= 0x1FC {
        WordApplied(virq[..], sys.enabled, (offset - 0x180) / 4, data);
        ok := WriteBits((offset - 0x180) / 4, data, false);
      } else if offset >= 0x400 && offset <= 0x7F8 {
      } else if offset >= 0x800 && offset <= 0x8F8 {
        var n := (offset - 0x800) / 4;
        if n <= 7 {
          ok := false;
        }
      } else if offset >= 0xC00 && offset <= 0xCFC {
      } else if offset == 0xF00 {
        var filter := GetField(32, data, 25, 24);
        var targets := GetField(32, data, 23, 16);
        if filter == 0 {
          if GetBit(32, targets, 0) != 0 {
            ok := false;
          }
        } else {
          ok := false;
        }
      } else {
        ok := false;
      }
    }
  }

  // ---------------------------------------------------------------------------------------
  // Several guests, one physical distributor
  // ---------------------------------------------------------------------------------------

  datatype Dists = Dists(guests: seq<seq<Virq>>, forwarded: set<int>)

  // A write by guest vm to its virtual distributor.
  datatype GuestWrite = GuestWrite(vm: nat, offset: u32, data: u32)

  predicate ShapedDists(w: Dists) {
    forall g :: 0 <= g < |w.guests| ==> |w.guests[g]| == VIRQS
  }

  predicate LegalWrites(n: nat, ws: seq<GuestWrite>) {
    forall k :: 0 <= k < |ws| ==> ws[k].vm < n && InScope(ws[k].offset)
  }

  function StepWrite(w: Dists, x: GuestWrite): (r: Option<Dists>)
    requires ShapedDists(w) && x.vm < |w.guests| && InScope(x.offset)
    ensures r.Some? ==> ShapedDists(r.value) && |r.value.guests| == |w.guests|
  {
    match KindOf(x.offset, x.data)
    case Ignored => Some(w)
    case Leaves => None
    case SetsEnable(_) => Some(w)
    case Bits(reg, on) =>
      match ApplyBits(w.guests[x.vm], w.forwarded, reg, x.data, on, 32)
      case Exit => None
      case Done(v, f) => Some(Dists(w.guests[x.vm := v], f))
  }

  function RunWrites(w: Dists, ws: seq<GuestWrite>): (r: Option<Dists>)
    requires ShapedDists(w) && LegalWrites(|w.guests|, ws)
    ensures r.Some? ==> ShapedDists(r.value) && |r.value.guests| == |w.guests|
  {
    if ws == [] then Some(w)
    else match RunWrites(w, ws[..|ws| - 1])
    case None => None
    case Some(u) => StepWrite(u, ws[|ws| - 1])
  }

  // One write: the words at 0x100 and 0x104 enable what they name, those at 0x180 and 0x184
  // disable it, no other offset touches the interrupts of any guest.
  lemma WriteMeaning(w: Dists, x: GuestWrite)
    requires ShapedDists(w) && x.vm < |w.guests| && InScope(x.offset)
    ensures match StepWrite(w, x)
      case None =>
        && (0x100 <= x.offset < 0x108 ==> NamesUnphysical((x.offset - 0x100) / 4, x.data, w.guests[x.vm]))
        && (0x180 <= x.offset < 0x188 ==> NamesUnphysical((x.offset - 0x180) / 4, x.data, w.guests[x.vm]))
      case Some(u) =>
        && u.guests == w.guests[x.vm := u.guests[x.vm]]
        && (if 0x100 <= x.offset < 0x108 then
              Enables((x.offset - 0x100) / 4, x.data, w.guests[x.vm], w.forwarded, u.guests[x.vm], u.forwarded)
            else if 0x180 <= x.offset < 0x188 then
              Disables((x.offset - 0x180) / 4, x.data, w.guests[x.vm], w.forwarded, u.guests[x.vm], u.forwarded)
            else u == w)
  {
    hide Bit, ApplyBits, Enables, Disables, NamesUnphysical;
    if 0x100 <= x.offset < 0x108 {
      WordApplied(w.guests[x.vm], w.forwarded, (x.offset - 0x100) / 4, x.data);
    } else if 0x180 <= x.offset < 0x188 {
      WordApplied(w.guests[x.vm], w.forwarded, (x.offset - 0x180) / 4, x.data);
    }
  }

  // What a write says about virtual interrupt ir of its guest: a set bit in a word at 0x100 or
  // 0x104 says enabled, in one at 0x180 or 0x184 disabled.
  function Word(x: GuestWrite, ir: nat): Option<bool> {
    if 0x100 <= x.offset < 0x108 && Names((x.offset - 0x100) / 4, x.data, ir) then Some(true)
    else if 0x180 <= x.offset < 0x188 && Names((x.offset - 0x180) / 4, x.data, ir) then Some(false)
    else None
  }

  // What the last write of guest g that names virtual interrupt ir says.
  function LastWord(ws: seq<GuestWrite>, g: nat, ir: nat): Option<bool> {
    if ws == [] then None
    else
      var x := ws[|ws| - 1];
      if x.vm == g && Word(x, ir).Some? then Word(x, ir) else LastWord(ws[..|ws| - 1], g, ir)
  }

  lemma StepEnabled(w: Dists, x: GuestWrite, g: nat, ir: nat)
    requires ShapedDists(w) && x.vm < |w.guests| && InScope(x.offset) && StepWrite(w, x).Some?
    requires g < |w.guests| && ir < VIRQS
    ensures StepWrite(w, x).value.guests[g][ir] ==
      if x.vm == g && Word(x, ir).Some? then w.guests[g][ir].(en := Word(x, ir).value) else w.guests[g][ir]
  {
    hide StepWrite, Names;
    WriteMeaning(w, x);
  }

  // After any sequence of writes a virtual interrupt is enabled as the last write that named it
  // says, and as before if none did; the mapping is untouched.
  lemma {:induction false} EnabledIsLastWord(w: Dists, ws: seq<GuestWrite>, g: nat, ir: nat)
    requires ShapedDists(w) && LegalWrites(|w.guests|, ws) && RunWrites(w, ws).Some?
    requires g < |w.guests| && ir < VIRQS
    ensures RunWrites(w, ws).value.guests[g][ir] ==
      match LastWord(ws, g, ir)
      case None => w.guests[g][ir]
      case Some(on) => w.guests[g][ir].(en := on)
  {
    hide Word, StepWrite;
    if ws != [] {
      var n := |ws| - 1;
      EnabledIsLastWord(w, ws[..n], g, ir);
      StepEnabled(RunWrites(w, ws[..n]).value, ws[n], g, ir);
    }
  }

  // No physical interrupt is mapped by two virtual interrupts of the system.
  ghost predicate DistinctPids(w: Dists) {
    forall g, i, h, j ::
      (0 <= g < |w.guests| && 0 <= i < |w.guests[g]| && 0 <= h < |w.guests| && 0 <= j < |w.guests[h]|
       && w.guests[g][i].pid == w.guests[h][j].pid != -1) ==> (g == h && i == j)
  }

  // A mapped interrupt is forwarded exactly while its virtual interrupt is enabled.
  ghost predicate Agrees(w: Dists) {
    forall g, i :: 0 <= g < |w.guests| && 0 <= i < |w.guests[g]| && w.guests[g][i].pid != -1 ==>
      (w.guests[g][i].pid in w.forwarded <==> w.guests[g][i].en)
  }

  ghost predicate Mapped(w: Dists, pid: int) {
    exists g, i :: 0 <= g < |w.guests| && 0 <= i < |w.guests[g]| && w.guests[g][i].pid == pid
  }

  // One write keeps the agreement and the mapping, and forwards no interrupt nobody mapped.
  lemma StepAgrees(w: Dists, x: GuestWrite)
    requires ShapedDists(w) && x.vm < |w.guests| && InScope(x.offset) && StepWrite(w, x).Some?
    requires DistinctPids(w) && Agrees(w)
    ensures var u := StepWrite(w, x).value;
      && DistinctPids(u) && Agrees(u)
      && (forall g, i :: 0 <= g < |w.guests| && 0 <= i < VIRQS ==> u.guests[g][i].pid == w.guests[g][i].pid)
      && (forall pid :: !Mapped(w, pid) ==> (pid in u.forwarded <==> pid in w.forwarded))
  {
    hide KindOf, Hits, ApplyBits;
    var e := KindOf(x.offset, x.data);
    if e.Bits? {
      assert e.reg < 2 by { RegisterInScope(x.offset, x.data); }
      BitsMeaning(w.guests[x.vm], w.forwarded, e.reg, x.data, e.on, 32);
    }
  }

  lemma RegisterInScope(offset: u32, data: u32)
    requires InScope(offset) && KindOf(offset, data).Bits?
    ensures KindOf(offset, data).reg < 2
  {
    hide Bit;
  }

  ghost predicate SamePids(w: Dists, u: Dists) {
    && |u.guests| == |w.guests|
    && (forall g, i :: 0 <= g < |w.guests| && 0 <= i < VIRQS && i < |u.guests[g]| && i < |w.guests[g]| ==>
          u.guests[g][i].pid == w.guests[g][i].pid)
  }

  lemma {:induction false} RunAgrees(w: Dists, ws: seq<GuestWrite>, pid: int)
    requires ShapedDists(w) && LegalWrites(|w.guests|, ws) && RunWrites(w, ws).Some?
    requires DistinctPids(w) && Agrees(w)
    ensures var u := RunWrites(w, ws).value;
      && DistinctPids(u) && Agrees(u) && SamePids(w, u)
      && (!Mapped(w, pid) ==> (pid in u.forwarded <==> pid in w.forwarded))
  {
    hide StepWrite, DistinctPids, Agrees;
    if ws != [] {
      var n := |ws| - 1;
      RunAgrees(w, ws[..n], pid);
      StepAgrees(RunWrites(w, ws[..n]).value, ws[n]);
    }
  }

  // Over every sequence of writes by guests whose mapped interrupts are pairwise distinct, the
  // physical distributor forwards exactly the enabled mapped interrupts of the guests, and for
  // every other interrupt what it forwarded at the start.
  lemma ForwardedIsUnion(w: Dists, ws: seq<GuestWrite>, pid: int)
    requires ShapedDists(w) && LegalWrites(|w.guests|, ws) && RunWrites(w, ws).Some?
    requires DistinctPids(w) && Agrees(w) && pid != -1
    ensures var u := RunWrites(w, ws).value;
      pid in u.forwarded <==>
        if Mapped(w, pid)
        then exists g, i :: 0 <= g < |u.guests| && 0 <= i < |u.guests[g]| && u.guests[g][i] == Virq(true, pid)
        else pid in w.forwarded
  {
    hide RunWrites, DistinctPids;
    RunAgrees(w, ws, pid);
    var u := RunWrites(w, ws).value;
    if Mapped(w, pid) {
      var g, i :| 0 <= g < |w.guests| && 0 <= i < |w.guests[g]| && w.guests[g][i].pid == pid;
      assert u.guests[g][i].pid == pid;
      OnlyOwner(u, g, i, pid);
    }
  }

  lemma OnlyOwner(u: Dists, g: nat, i: nat, pid: int)
    requires DistinctPids(u) && pid != -1
    requires g < |u.guests| && i < |u.guests[g]| && u.guests[g][i].pid == pid
    ensures forall h, j :: 0 <= h < |u.guests| && 0 <= j < |u.guests[h]| && u.guests[h][j].pid == pid ==>
      u.guests[h][j].en == u.guests[g][i].en
  {
  }

  // ---------------------------------------------------------------------------------------
  // The mapping of main
  // ---------------------------------------------------------------------------------------

  function MainVirqs(uartPid: int, timer0Pid: int, timer2Pid: int): seq<Virq> {
    seq(VIRQS, i => if i == 44 then Virq(false, uartPid)
                    else if i == 36 then Virq(false, timer0Pid)
                    else if i == 37 then Virq(false, timer2Pid)
                    else UNMAPPED)
  }

  // guest_rpb_init_virq, on the distributor vdev_gic2_dist_init leaves
  method InitVirq(d: VDist, uartPid: int, timer0Pid: int, timer2Pid: int)
    requires d.virq.Length == VIRQS && forall i :: 0 <= i < VIRQS ==> d.virq[i] == UNMAPPED
    modifies d.virq
    ensures d.virq[..] == MainVirqs(uartPid, timer0Pid, timer2Pid)
  {
    d.MapVirq(44, uartPid);
    d.MapVirq(36, timer0Pid);
    d.MapVirq(37, timer2Pid);
  }

  // The mapping main gives guest g.
  function GuestVirqs(g: nat): seq<Virq> {
    MainVirqs(40 + g, 44 + g, 48 + g)
  }

  const MAIN_DISTS: Dists := Dists([GuestVirqs(0), GuestVirqs(1), GuestVirqs(2), GuestVirqs(3)], {})

  // Main's four guests satisfy what EnabledIsLastWord and ForwardedIsUnion ask for.
  lemma MainIsDistinct()
    ensures ShapedDists(MAIN_DISTS) && DistinctPids(MAIN_DISTS) && Agrees(MAIN_DISTS)
  {
    var w := MAIN_DISTS;
    forall g, i | 0 <= g < |w.guests| && 0 <= i < |w.guests[g]| && w.guests[g][i].pid != -1
      ensures w.guests[g] == GuestVirqs(g)
      ensures w.guests[g][i].pid == if i == 44 then 40 + g else if i == 36 then 44 + g else 48 + g
      ensures !w.guests[g][i].en && (i == 44 || i == 36 || i == 37)
    {
      assert g == 0 || g == 1 || g == 2 || g == 3;
    }
  }
}
