// The decisions of guest_rpb_hyp_trap_dabort_handler (guests/guest_rpb.c): the address of the
// fault, the branch it selects, and the instruction behind a device access.
module Faults {
  import opened Options
  import opened BitOps
  import opened GuestTables
  import opened Machine

  // ---------------------------------------------------------------------------------------
  // The branch
  // ---------------------------------------------------------------------------------------

  // Which branch a page base selects: the low window, the high window, or a device.
  datatype Branch = LowRam | HighRam | Device

  function BranchOf(base: u32): Branch {
    if base <= 0x800_0000 then LowRam
    else if 0x7000_0000 <= base < 0x9000_0000 then HighRam
    else Device
  }

  // A fault on x is answered by allocating a page.
  predicate Served(x: u32) {
    BranchOf(x - x % 0x1000) != Device
  }

  // The low page of the pair that is allocated then.
  function FaultPage(x: u32): (p: nat) {
    if x < 0x7000_0000 then x / 0x1000 else x / 0x1000 - HIGH_PAGE
  }

  lemma ServedPages(x: u32)
    ensures Served(x) <==> x / 0x1000 <= 0x8000 || 0x7_0000 <= x / 0x1000 < 0x9_0000
    ensures Served(x) ==> FaultPage(x) < 0x2_0000
    ensures Served(x) ==> x / 0x1000 == FaultPage(x) || x / 0x1000 == HIGH_PAGE + FaultPage(x)
  {
  }

  // IPA[31:12] from HPFAR, IPA[11:0] from HDFAR.
  function FaultAddress(hpfar: u32, hdfar: u32): nat {
    hpfar / 16 % 0x10_0000 * 0x1000 + hdfar % 0x1000
  }

  // For an access to x at virtual address va the hardware puts x[31:12] into HPFAR[31:4] and va
  // into HDFAR; va and x agree below bit 12.
  lemma AccessedAddress(x: u32, va: u32)
    requires va % 0x1000 == x % 0x1000
    ensures x / 0x1000 * 16 < 0x1_0000_0000
    ensures FaultAddress(x / 0x1000 * 16, va) == x
  {
    DivUnique(x / 0x1000 * 16, 16, x / 0x1000, 0);
    DivUnique(x / 0x1000, 0x10_0000, 0, x / 0x1000);
  }

  lemma LowMask(x: u32)
    ensures And(32, x, Mask(32, 11, 0)) == x % 0x1000
    ensures And(32, x, Mask(32, 31, 12)) == x - x % 0x1000
  {
    hide Mask, And, Pow2;
    Powers();
    var low, high := x % 0x1000, x - x % 0x1000;
    forall i: nat | i < 32
      ensures Bit(And(32, x, Mask(32, 11, 0)), i) == Bit(low, i)
      ensures Bit(And(32, x, Mask(32, 31, 12)), i) == Bit(high, i)
    {
      AndBit(32, x, Mask(32, 11, 0), i);
      AndBit(32, x, Mask(32, 31, 12), i);
      MaskBit(32, 11, 0, i);
      MaskBit(32, 31, 12, i);
      SplitBit(x, i);
    }
    WordBounds(32, x, Mask(32, 11, 0));
    WordBounds(32, x, Mask(32, 31, 12));
    BitsDecide(32, And(32, x, Mask(32, 11, 0)), low);
    BitsDecide(32, And(32, x, Mask(32, 31, 12)), high);
  }

  lemma SplitBit(x: nat, i: nat)
    ensures Bit(x % 0x1000, i) == (i < 12 && Bit(x, i))
    ensures Bit(x - x % 0x1000, i) == (12 <= i && Bit(x, i))
  {
    hide Pow2;
    Powers();
    LowIs(12, x, 0x1000);
    LowBit(12, x, i);
    ShrIs(x, 12, 0x1000);
    ShlBit(Shr(x, 12), 12, i);
    ShlIsMul(Shr(x, 12), 12);
    if i >= 12 {
      ShrBit(x, 12, i - 12);
    }
  }

  // The shifts that move HPFAR[31:4] to bits 31:12.
  lemma PageField(hpfar: u32)
    ensures var page := hpfar / 16 % 0x10_0000;
      && page < Pow2(20) && Pow2(12) == 0x1000
      && Low(32, Shl(Shr(hpfar, 4), 12)) == Low(32, Shl(page, 12)) == page * 0x1000
      && page * 0x1000 + 0xFFF < 0x1_0000_0000
  {
    hide Pow2, Low, Shl, Shr;
    Powers();
    var x, page := hpfar / 16, hpfar / 16 % 0x10_0000;
    ShrIs(hpfar, 4, 16);
    ShlIsMul(x, 12);
    ShlIsMul(page, 12);
    LowIs(32, x * 0x1000, 0x1_0000_0000);
    LowIs(32, page * 0x1000, 0x1_0000_0000);
    DivUnique(x * 0x1000, 0x1_0000_0000, x / 0x10_0000, page * 0x1000);
    DivUnique(page * 0x1000, 0x1_0000_0000, 0, page * 0x1000);
  }

  // The address computation of the handler.
  method DecodeFault(hpfar: u32, hdfar: u32) returns (ipa: u32, base: u32)
    ensures ipa == FaultAddress(hpfar, hdfar) && base == ipa - ipa % 0x1000
    ensures forall x: u32 :: hpfar == x / 0x1000 * 16 && hdfar % 0x1000 == x % 0x1000 ==>
      ipa == x && base == x / 0x1000 * 0x1000
  {
    hide And, Or, Mask, Shl, Shr, Pow2, Low;
    Powers();
    LowMask(hdfar);
    PageField(hpfar);
    OrIs(32, hpfar / 16 % 0x10_0000, 12, hdfar % 0x1000, 0x1000);
    var a := Low(32, Shl(Shr(hpfar, 4), 12));
    a := Or(32, a, And(32, hdfar, Mask(32, 11, 0)));
    ipa := a;
    LowMask(ipa);
    base := And(32, ipa, Mask(32, 31, 12));
    forall x: u32 | hpfar == x / 0x1000 * 16 && hdfar % 0x1000 == x % 0x1000
      ensures ipa == x
    {
      AccessedAddress(x, hdfar);
    }
  }

  // The tests on the page base; the second compares it with a sum that wraps around.
  method Dispatch(base: u32) returns (b: Branch)
    ensures b == BranchOf(base)
  {
    if base <= 0x800_0000 {
      b := LowRam;
    } else if base >= 0x7000_0000 && base <= (base + 0x7000_0000) % 0x1_0000_0000 {
      b := HighRam;
    } else {
      b := Device;
    }
  }

  // The page the two RAM branches pass to the allocator.
  lemma BranchPage(x: u32)
    requires Served(x)
    ensures var base := x - x % 0x1000; var p := FaultPage(x);
      && base % 0x1000 == 0 && p < 0x2_0000
      && (BranchOf(base) == LowRam ==> base / 0x1000 == p)
      && (BranchOf(base) == HighRam ==>
            && base >= 0x7000_0000
            && (base - 0x7000_0000) / 0x1000 == p && (base - 0x7000_0000) % 0x1000 == 0)
  {
    var q := x / 0x1000;
    DivUnique(q * 0x1000, 0x1000, q, 0);
    if x >= 0x7000_0000 {
      DivUnique(q * 0x1000 - 0x7000_0000, 0x1000, q - HIGH_PAGE, 0);
    }
  }

  // ---------------------------------------------------------------------------------------
  // Device accesses
  // ---------------------------------------------------------------------------------------

  datatype Transfer = Transfer(rt: nat, isLoad: bool)

  predicate BitAt(inst: u32, at: nat)
    requires at > 0
  {
    inst / at % 2 == 1
  }

  // The instructions the handler carries out: LDR and STR with an immediate offset, STR with a
  // register offset; not the byte variants.
  function TransferOf(inst: u32): Option<Transfer> {
    var kind, rt := inst / 0x200_0000 % 8, inst / 0x1000 % 0x10;
    if BitAt(inst, 0x40_0000) then None
    else if kind == 2 then Some(Transfer(rt, BitAt(inst, 0x10_0000)))
    else if kind == 3 && !BitAt(inst, 0x10_0000) && !BitAt(inst, 0x10) then Some(Transfer(rt, false))
    else None
  }

  lemma OneBit(inst: u32, n: nat, at: nat)
    requires n < 32 && at == Pow2(n) && at > 0
    ensures GetBit(32, inst, n) == 0 <==> !BitAt(inst, at)
  {
    hide GetBit, Pow2, Shr;
    GetBitIs(32, inst, n);
    ShrBit(inst, n, 0);
    ShrIs(inst, n, at);
  }

  lemma InstFields(inst: u32)
    ensures GetField(32, inst, 27, 25) == inst / 0x200_0000 % 8
    ensures GetField(32, inst, 27, 24) == inst / 0x100_0000 % 0x10
    ensures GetField(32, inst, 22, 16) == inst / 0x1_0000 % 0x80
    ensures GetField(32, inst, 15, 12) == inst / 0x1000 % 0x10
    ensures GetBit(32, inst, 22) == 0 <==> !BitAt(inst, 0x40_0000)
    ensures GetBit(32, inst, 20) == 0 <==> !BitAt(inst, 0x10_0000)
    ensures GetBit(32, inst, 4) == 0 <==> !BitAt(inst, 0x10)
  {
    hide GetField, GetBit, Pow2, BitAt;
    Powers();
    Pow2Add(6, 1);
    Pow2Add(21, 1);
    OneBit(inst, 22, 0x40_0000);
    OneBit(inst, 20, 0x10_0000);
    OneBit(inst, 4, 0x10);
    GetIs(32, inst, 27, 25, 0x200_0000, 8);
    GetIs(32, inst, 27, 24, 0x100_0000, 0x10);
    GetIs(32, inst, 22, 16, 0x1_0000, 0x80);
    GetIs(32, inst, 15, 12, 0x1000, 0x10);
  }

  // What the test for literal loads asks for, the test for loads with an immediate offset has.
  lemma LiteralLoads(inst: u32)
    requires inst / 0x100_0000 % 0x10 == 5 && inst / 0x1_0000 % 0x80 == 0x1F
    ensures inst / 0x200_0000 % 8 == 2 && !BitAt(inst, 0x40_0000) && BitAt(inst, 0x10_0000)
  {
    var a, b := inst / 0x1_0000, inst / 0x100_0000;
    var h, g := a / 0x80, b / 0x10;
    DivUnique(inst, 0x10_0000, 8 * h + 1, 0xF_0000 + inst % 0x1_0000);
    DivUnique(8 * h + 1, 2, 4 * h, 1);
    DivUnique(inst, 0x40_0000, 2 * h, 0x1F_0000 + inst % 0x1_0000);
    DivUnique(2 * h, 2, h, 0);
    DivUnique(inst, 0x200_0000, 8 * g + 2, 0x100_0000 + inst % 0x100_0000);
    DivUnique(8 * g + 2, 8, g, 2);
  }

  // The chain of tests.  The second one never decides: every literal load already passes the
  // first.
  method DecodeInst(inst: u32) returns (t: Option<Transfer>)
    ensures t == TransferOf(inst)
  {
    hide GetField, GetBit, BitAt;
    InstFields(inst);
    var kind := GetField(32, inst, 27, 25);
    var b22, b20, b4 := GetBit(32, inst, 22), GetBit(32, inst, 20), GetBit(32, inst, 4);
    var rt := GetField(32, inst, 15, 12);
    if kind == 2 && b22 == 0 && b20 != 0 {
      t := Some(Transfer(rt, true)); // ldr_imm
    } else if GetField(32, inst, 27, 24) == 5 && GetField(32, inst, 22, 16) == 0x1F {
      LiteralLoads(inst);
      t := None; // ldr literal
    } else if kind == 3 && b22 == 0 && b20 != 0 && b4 == 0 {
      t := None; // ldr reg
    } else if kind == 2 && b22 == 0 && b20 == 0 {
      t := Some(Transfer(rt, false)); // str_imm
    } else if kind == 3 && b22 == 0 && b20 == 0 && b4 == 0 {
      t := Some(Transfer(rt, false)); // str_reg
    } else {
      t := None;
    }
  }

  // System registers, system controller, timer 2, interrupt distributor.
  predicate Emulated(base: u32) {
    base == 0x1000_0000 || base == 0x1000_1000 || base == 0x1001_2000 || base == 0x1E00_1000
  }

  // What the handler does for a fault at ipa: `room` says whether a page is left in the pool,
  // `device` is what an emulated device answers, None if it leaves the program.
  function AnswerOf(ipa: u32, inst: u32, room: bool, device: Option<u32>): Answer {
    var base := ipa - ipa % 0x1000;
    if BranchOf(base) != Device then (if room then Redo else GiveUp)
    else match TransferOf(inst)
    case None => GiveUp
    case Some(t) => if Emulated(base) && device.Some? then Access(t.rt, t.isLoad, device.value) else GiveUp
  }

  // What the handler does by the accessed address: a page for anything up to the page at 128 MiB
  // and between 0x70000000 and 0x8FFFFFFF; an emulated device in one of the four device pages, for
  // an instruction it can carry out; no answer anywhere else.
  lemma AnswerByAddress(x: u32, inst: u32, room: bool, device: Option<u32>)
    ensures AnswerOf(x, inst, room, device) ==
      if x < 0x800_1000 || 0x7000_0000 <= x < 0x9000_0000 then (if room then Redo else GiveUp)
      else if 0x1000_0000 <= x < 0x1000_2000 || 0x1001_2000 <= x < 0x1001_3000 || 0x1E00_1000 <= x < 0x1E00_2000 then
        match (TransferOf(inst), device)
        case (Some(t), Some(v)) => Access(t.rt, t.isLoad, v)
        case _ => GiveUp
      else GiveUp
  {
    hide TransferOf;
  }

  // The fields of a load or store word: condition, 010 for an immediate and 011 for a register
  // offset, P, U, B, W, L, rn, rt and the offset.
  function LoadStore(cond: nat, kind: nat, pu: nat, b: nat, w: nat, l: nat, rn: nat, rt: nat, offset: nat): nat {
    cond * 0x1000_0000 + kind * 0x200_0000 + pu * 0x80_0000 + b * 0x40_0000 + w * 0x20_0000 + l * 0x10_0000
    + rn * 0x1_0000 + rt * 0x1000 + offset
  }

  // Carried out are exactly LDR and STR with immediate and STR with register offset, words only; L
  // tells a load, bit 4 of a register offset belongs to other instructions.
  lemma Encodings(cond: nat, kind: nat, pu: nat, b: nat, w: nat, l: nat, rn: nat, rt: nat, offset: nat)
    requires cond < 16 && kind < 8 && pu < 4 && b < 2 && w < 2 && l < 2 && rn < 16 && rt < 16 && offset < 0x1000
    ensures LoadStore(cond, kind, pu, b, w, l, rn, rt, offset) < 0x1_0000_0000
    ensures TransferOf(LoadStore(cond, kind, pu, b, w, l, rn, rt, offset)) ==
      if b == 0 && kind == 2 then Some(Transfer(rt, l == 1))
      else if b == 0 && kind == 3 && l == 0 && offset / 0x10 % 2 == 0 then Some(Transfer(rt, false))
      else None
  {
    var x := LoadStore(cond, kind, pu, b, w, l, rn, rt, offset);
    var r12 := rt * 0x1000 + offset;
    var r16 := rn * 0x1_0000 + r12;
    var r20 := l * 0x10_0000 + r16;
    var r22 := w * 0x20_0000 + r20;
    var r25 := pu * 0x80_0000 + b * 0x40_0000 + r22;
    var h := cond * 8 + kind;
    DivUnique(x, 0x200_0000, h, r25);
    DivUnique(h, 8, cond, kind);
    DivUnique(x, 0x40_0000, h * 8 + pu * 2 + b, r22);
    DivUnique(h * 8 + pu * 2 + b, 2, h * 4 + pu, b);
    var q := (h * 8 + pu * 2 + b) * 4 + w * 2 + l;
    DivUnique(x, 0x10_0000, q, r16);
    DivUnique(q, 2, (h * 8 + pu * 2 + b) * 2 + w, l);
    DivUnique(x, 0x1000, q * 0x100 + rn * 16 + rt, offset);
    DivUnique(q * 0x100 + rn * 16 + rt, 0x10, q * 16 + rn, rt);
    DivUnique(x, 0x10, (q * 0x100 + rn * 16 + rt) * 0x100 + offset / 0x10, offset % 0x10);
    DivUnique((q * 0x100 + rn * 16 + rt) * 0x100 + offset / 0x10, 2,
              (q * 0x100 + rn * 16 + rt) * 0x80 + offset / 0x10 / 2, offset / 0x10 % 2);
  }

  // The RAM branches answer by address alone, the device branches by page base and instruction.
  lemma AnswerCases(ipa: u32, inst: u32, room: bool, device: Option<u32>)
    ensures var base := ipa - ipa % 0x1000;
      && base % 0x1000 == 0
      && (Served(ipa) <==> BranchOf(base) != Device)
      && (Served(ipa) ==> AnswerOf(ipa, inst, room, device) == if room then Redo else GiveUp)
      && (!Served(ipa) ==> AnswerOf(ipa, inst, room, device) == AnswerOf(base, inst, true, device))
  {
    hide TransferOf, Emulated;
  }
}
