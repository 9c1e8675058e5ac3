// List registers of the virtual interrupt controller: injecting an interrupt
// (guests/guest_rpb.c, guest_rpb_irq_handler and guest_rpb_irq_handler_suspend).
module ListRegisters {
  import opened Options
  import opened BitOps

  const LR_INVALID: nat := 0
  const LR_PENDING: nat := 1

  const LISTS: nat := 64

  // The fields of a list register: state 29:28, physical number 19:10, virtual number 9:0.
  function State(w: u32): nat {
    w / 0x1000_0000 % 4
  }

  function PidOf(w: u32): nat {
    w / 0x400 % 0x400
  }

  function VidOf(w: u32): nat {
    w % 0x400
  }

  // Bits 31:30 and 27:20, which injection keeps.
  function Kept(w: u32): (nat, nat) {
    (w / 0x4000_0000, w / 0x10_0000 % 0x100)
  }

  lemma Fields(w: u32)
    ensures State(w) == w / 0x1000_0000 % 4 && PidOf(w) == w / 0x400 % 0x400 && VidOf(w) == w % 0x400
    ensures Kept(w) == (w / 0x4000_0000, w / 0x10_0000 % 0x100)
  {
  }

  // The word that makes a list register Pending.
  function LrWord(w: u32, pid: nat, vid: nat): u32 {
    Kept(w).0 * 0x4000_0000 + LR_PENDING * 0x1000_0000 + Kept(w).1 * 0x10_0000 + pid % 0x400 * 0x400 + vid % 0x400
  }

  lemma Assemble(a: nat, b: nat, c: nat, d: nat, e: nat, w: nat)
    requires b < 4 && c < 0x100 && d < 0x400 && e < 0x400
    requires w == a * 0x4000_0000 + b * 0x1000_0000 + c * 0x10_0000 + d * 0x400 + e
    ensures w / 0x4000_0000 == a && w % 0x1000_0000 == c * 0x10_0000 + d * 0x400 + e
    ensures w / 0x10_0000 == a * 0x400 + b * 0x100 + c && w % 0x400 == e
    ensures w / 0x400 == a * 0x10_0000 + b * 0x4_0000 + c * 0x400 + d
    ensures w / 0x1000_0000 == a * 4 + b
  {
    DivUnique(w, 0x4000_0000, a, b * 0x1000_0000 + c * 0x10_0000 + d * 0x400 + e);
    DivUnique(w, 0x1000_0000, a * 4 + b, c * 0x10_0000 + d * 0x400 + e);
    DivUnique(w, 0x10_0000, a * 0x400 + b * 0x100 + c, d * 0x400 + e);
    DivUnique(w, 0x400, a * 0x10_0000 + b * 0x4_0000 + c * 0x400 + d, e);
  }

  lemma Disassemble(w: u32) returns (a: nat, b: nat, c: nat, d: nat, e: nat)
    ensures b < 4 && c < 0x100 && d < 0x400 && e < 0x400
    ensures w == a * 0x4000_0000 + b * 0x1000_0000 + c * 0x10_0000 + d * 0x400 + e
    ensures Kept(w) == (a, c)
  {
    var x, y := w / 0x400, w / 0x10_0000;
    e, d, c, b, a := w % 0x400, x % 0x400, y % 0x100, w / 0x1000_0000 % 4, w / 0x4000_0000;
    DivUnique(w, 0x10_0000, x / 0x400, d * 0x400 + e);
    DivUnique(w, 0x1000_0000, y / 0x100, c * 0x10_0000 + d * 0x400 + e);
    DivUnique(w, 0x4000_0000, w / 0x1000_0000 / 4, b * 0x1000_0000 + c * 0x10_0000 + d * 0x400 + e);
  }

  // The state, pid and vid fields of the written word, and what it keeps.
  lemma InjectedWord(w: u32, pid: nat, vid: nat)
    ensures State(LrWord(w, pid, vid)) == LR_PENDING
    ensures PidOf(LrWord(w, pid, vid)) == pid % 0x400
    ensures VidOf(LrWord(w, pid, vid)) == vid % 0x400
    ensures Kept(LrWord(w, pid, vid)) == Kept(w)
  {
    var a, b, c, d, e := Disassemble(w);
    var p, v := pid % 0x400, vid % 0x400;
    Assemble(a, 1, c, p, v, LrWord(w, pid, vid));
    DivUnique(a * 4 + 1, 4, a, 1);
    DivUnique(a * 0x10_0000 + 0x4_0000 + c * 0x400 + p, 0x400, a * 0x400 + 0x100 + c, p);
    DivUnique(a * 0x400 + 0x100 + c, 0x100, a * 4 + 1, c);
  }

  // Bits 29:28 hold the state.
  lemma StateField(w: u32)
    ensures GetField(32, w, 29, 28) == State(w)
  {
    hide GetField, Pow2;
    Powers();
    GetIs(32, w, 29, 28, 0x1000_0000, 4);
  }

  // set_bit(&list, 1, true), then the state, pid and vid fields: what is left of bit 1 is
  // overwritten by the last of them.
  function CodeWord(w: u32, pid: nat, vid: nat): nat {
    SetField(32, SetField(32, SetField(32, SetBit(32, w, 1, 1), 29, 28, LR_PENDING), 19, 10, pid), 9, 0, vid)
  }

  lemma CodeWordIs(w: u32, pid: nat, vid: nat)
    ensures CodeWord(w, pid, vid) == LrWord(w, pid, vid)
  {
    hide SetField, SetBit, Pow2;
    Powers();
    var a, b, c, d, e := Disassemble(w);
    var p, v, e1 := pid % 0x400, vid % 0x400, e / 4 * 4 + 2 + e % 2;
    FirstBit(w, a, b, c, d, e);
    var w1 := SetBit(32, w, 1, 1);
    Assemble(a, b, c, d, e1, w1);
    SetIs(32, w1, 29, 28, LR_PENDING, 0x4000_0000, 0x1000_0000, 4);
    var w2 := SetField(32, w1, 29, 28, LR_PENDING);
    Assemble(a, 1, c, d, e1, w2);
    SetIs(32, w2, 19, 10, pid, 0x10_0000, 0x400, 0x400);
    var w3 := SetField(32, w2, 19, 10, pid);
    Assemble(a, 1, c, p, e1, w3);
    SetIs(32, w3, 9, 0, vid, 0x400, 1, 0x400);
  }

  lemma FirstBit(w: u32, a: nat, b: nat, c: nat, d: nat, e: nat)
    requires b < 4 && c < 0x100 && d < 0x400 && e < 0x400
    requires w == a * 0x4000_0000 + b * 0x1000_0000 + c * 0x10_0000 + d * 0x400 + e
    ensures SetBit(32, w, 1, 1)
         == a * 0x4000_0000 + b * 0x1000_0000 + c * 0x10_0000 + d * 0x400 + (e / 4 * 4 + 2 + e % 2)
  {
    hide SetField, SetBit, Pow2;
    Powers();
    SetBitIsSetField(32, w, 1, 1);
    SetIs(32, w, 1, 1, 1, 4, 2, 2);
    var h := a * 0x1000_0000 + b * 0x400_0000 + c * 0x4_0000 + d * 0x100;
    DivUnique(w, 4, h + e / 4, e % 4);
    DivUnique(w, 2, 2 * h + e / 2, e % 2);
  }

  // The lowest slot at or above k whose state is Invalid.
  function FirstInvalid(list: seq<u32>, k: nat): Option<nat>
    requires k <= |list|
    decreases |list| - k
  {
    if k == |list| then None
    else if State(list[k]) == LR_INVALID then Some(k)
    else FirstInvalid(list, k + 1)
  }

  lemma {:induction false} FirstInvalidIs(list: seq<u32>, k: nat)
    requires k <= |list|
    ensures match FirstInvalid(list, k)
      case None => forall j :: k <= j < |list| ==> State(list[j]) != LR_INVALID
      case Some(i) =>
        && k <= i < |list| && State(list[i]) == LR_INVALID
        && (forall j :: k <= j < i ==> State(list[j]) != LR_INVALID)
    decreases |list| - k
  {
    hide State;
    if k < |list| && State(list[k]) != LR_INVALID {
      FirstInvalidIs(list, k + 1);
    }
  }

  function Inject(list: seq<u32>, pid: nat, vid: nat): Option<seq<u32>> {
    FirstInvalidIs(list, 0);
    match FirstInvalid(list, 0)
    case None => None
    case Some(i) => Some(list[i := LrWord(list[i], pid, vid)])
  }

  // ---------------------------------------------------------------------------------------
  // What injection does
  // ---------------------------------------------------------------------------------------

  function Occupied(list: seq<u32>): nat {
    if list == [] then 0
    else Occupied(list[..|list| - 1]) + if State(list[|list| - 1]) != LR_INVALID then 1 else 0
  }

  lemma {:induction false} OccupiedUpdate(list: seq<u32>, i: nat, w: u32)
    requires i < |list| && State(list[i]) == LR_INVALID && State(w) != LR_INVALID
    ensures Occupied(list[i := w]) == Occupied(list) + 1
  {
    hide State;
    var n := |list| - 1;
    if i == n {
      assert list[i := w][..n] == list[..n];
    } else {
      OccupiedUpdate(list[..n], i, w);
      assert list[i := w][..n] == list[..n][i := w];
    }
  }

  // Injection fills the lowest Invalid slot with a Pending entry for (pid, vid), changes no
  // other slot, and occupies exactly one more; it fails exactly when no slot is Invalid.  Bits
  // 29:28 are 0 for Invalid and 1 for Pending, bits 19:10 are pid, bits 9:0 vid.
  lemma InjectSpec(list: seq<u32>, pid: nat, vid: nat)
    ensures Inject(list, pid, vid) == None <==> forall j :: 0 <= j < |list| ==> list[j] / 0x1000_0000 % 4 != 0
    ensures match Inject(list, pid, vid)
      case None => true
      case Some(after) =>
        && |after| == |list|
        && Occupied(after) == Occupied(list) + 1
        && exists i :: 0 <= i < |list| && list[i] / 0x1000_0000 % 4 == 0
             && (forall j :: 0 <= j < i ==> list[j] / 0x1000_0000 % 4 != 0)
             && (forall j :: 0 <= j < |list| && j != i ==> after[j] == list[j])
             && after[i] == LrWord(list[i], pid, vid)
             && after[i] / 0x1000_0000 % 4 == 1
             && after[i] / 0x400 % 0x400 == pid % 0x400 && after[i] % 0x400 == vid % 0x400
             && after[i] / 0x4000_0000 == list[i] / 0x4000_0000
             && after[i] / 0x10_0000 % 0x100 == list[i] / 0x10_0000 % 0x100
  {
    hide State, PidOf, VidOf, Kept, LrWord, FirstInvalid;
    FirstInvalidIs(list, 0);
    var r := FirstInvalid(list, 0);
    forall j | 0 <= j < |list|
      ensures State(list[j]) == list[j] / 0x1000_0000 % 4
    {
      Fields(list[j]);
    }
    if r.Some? {
      Fields(LrWord(list[r.value], pid, vid));
      Fields(list[r.value]);
      InjectedWord(list[r.value], pid, vid);
      OccupiedUpdate(list, r.value, LrWord(list[r.value], pid, vid));
    }
  }

  // A Pending entry is there.
  ghost predicate HasPending(list: seq<u32>) {
    exists j :: 0 <= j < |list| && State(list[j]) == LR_PENDING
  }

  // Injection keeps every entry that was Pending, and adds one.
  lemma InjectKeepsPending(list: seq<u32>, pid: nat, vid: nat)
    requires Inject(list, pid, vid).Some?
    ensures var after := Inject(list, pid, vid).value;
      && |after| == |list| && HasPending(after)
      && (forall j :: 0 <= j < |list| && State(list[j]) == LR_PENDING ==> after[j] == list[j])
  {
    hide State, PidOf, VidOf, Kept, LrWord, FirstInvalid;
    FirstInvalidIs(list, 0);
    var i := FirstInvalid(list, 0).value;
    InjectedWord(list[i], pid, vid);
    assert Inject(list, pid, vid).value[i] == LrWord(list[i], pid, vid);
  }
}
