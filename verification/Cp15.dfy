// Register names and accesses of vmm/include/cp15.h and vmm/cp15.c.
module Cp15 {
  import opened BitOps

  // ---------------------------------------------------------------------------------------
  // vmm/include/cp15.h: names.  (hsb 31:24, lsb 23:16, crn 15:12, opc1 11:8, crm 7:4, opc2 3:0)
  // The fields are disjoint, so the macros' ORs are written as sums.
  // ---------------------------------------------------------------------------------------

  function Setcr(crn: nat, opc1: nat, crm: nat, opc2: nat): u32
    requires crn < 16 && opc1 < 16 && crm < 16 && opc2 < 16
  {
    31 * 0x100_0000 + crn * 0x1000 + opc1 * 0x100 + crm * 0x10 + opc2
  }

  function Setfd(name: u32, hsb: nat, lsb: nat): u32
    requires hsb < 256 && lsb < 256
  {
    hsb * 0x100_0000 + lsb * 0x1_0000 + name % 0x1_0000
  }

  function Setcr64(crm: nat, opc1: nat): u32
    requires crm < 16 && opc1 < 16
  {
    63 * 0x100_0000 + opc1 * 0x100 + crm * 0x10
  }

  function Hsb(name: u32): nat {
    name / 0x100_0000
  }

  function Lsb(name: u32): nat {
    name / 0x1_0000 % 0x100
  }

  // A name whose field bounds are legal for a register of w bits.
  predicate Legal(w: nat, name: u32) {
    Lsb(name) <= Hsb(name) < w
  }

  const CSSELR: u32 := Setcr(0, 2, 0, 0)
  const SCTLR: u32 := Setcr(1, 0, 0, 0)
  const TTBR0: u32 := Setcr(2, 0, 0, 0)
  const TTBR1: u32 := Setcr(2, 0, 0, 1)
  const TTBCR: u32 := Setcr(2, 0, 0, 2)
  const DACR: u32 := Setcr(3, 0, 0, 0)
  const DFSR: u32 := Setcr(5, 0, 0, 0)
  const IFSR: u32 := Setcr(5, 0, 0, 1)
  const DFAR: u32 := Setcr(6, 0, 0, 0)
  const IFAR: u32 := Setcr(6, 0, 0, 2)
  const PRRR: u32 := Setcr(10, 0, 2, 0)
  const NMRR: u32 := Setcr(10, 0, 2, 1)
  const FCSEIDR: u32 := Setcr(13, 0, 0, 0)
  const CONTEXTIDR: u32 := Setcr(13, 0, 0, 1)
  const TPIDR_URO: u32 := Setcr(13, 0, 0, 3)

  const HADFSR: u32 := Setcr(5, 4, 1, 0)
  const HSR: u32 := Setcr(5, 4, 2, 0)
  const HDFAR: u32 := Setcr(6, 4, 0, 0)
  const HPFAR: u32 := Setcr(6, 4, 0, 4)

  const VTTBR_LPAE: u32 := Setcr64(2, 6)
  const VTTBR_LPAE_BADDR: u32 := Setfd(VTTBR_LPAE, 39, 0)
  const VTTBR_LPAE_VMID: u32 := Setfd(VTTBR_LPAE, 55, 48)

  // ---------------------------------------------------------------------------------------
  // vmm/cp15.c: from names to coprocessor registers
  // ---------------------------------------------------------------------------------------

  datatype Coord = Coord(crn: nat, opc1: nat, crm: nat, opc2: nat)

  datatype Reg = NoReg | At(c: Coord)

  // CP15_PARSE.  The instructions for TTBCR, TTBR0 and TTBR1 are not the ones their names
  // spell: the three are permuted.
  function Parse(n: u32): Reg {
    if n == Setcr(2, 0, 0, 2) then At(Coord(2, 0, 0, 0))
    else if n == Setcr(2, 0, 0, 0) then At(Coord(2, 0, 0, 1))
    else if n == Setcr(2, 0, 0, 1) then At(Coord(2, 0, 0, 2))
    else if Named(n) then At(Coord(n / 0x1000 % 16, n / 0x100 % 16, n / 0x10 % 16, n % 16))
    else NoReg
  }

  // The remaining cases of the switch, each of which accesses the register its name spells.
  predicate Named(n: u32) {
    IdNamed(n) || FaultNamed(n) || OtherNamed(n)
  }

  // Registers 0 and 1: identification, control.
  predicate IdNamed(n: u32) {
    || n == Setcr(0, 0, 0, 0) || n == Setcr(0, 0, 0, 1) || n == Setcr(0, 0, 0, 5) || n == Setcr(0, 0, 1, 4)
    || n == Setcr(0, 0, 1, 5) || n == Setcr(0, 0, 1, 6) || n == Setcr(0, 0, 1, 7) || n == Setcr(0, 1, 0, 0)
    || n == Setcr(0, 1, 0, 6) || n == Setcr(0, 1, 0, 7) || n == Setcr(0, 1, 0, 1) || n == Setcr(0, 2, 0, 0)
    || n == Setcr(0, 4, 0, 0) || n == Setcr(1, 0, 0, 0) || n == Setcr(1, 0, 1, 0) || n == Setcr(1, 4, 0, 0)
    || n == Setcr(1, 4, 1, 0) || n == Setcr(1, 4, 1, 1) || n == Setcr(1, 4, 1, 2) || n == Setcr(1, 4, 1, 3)
  }

  // Registers 2 to 6: translation, domains, faults.
  predicate FaultNamed(n: u32) {
    || n == Setcr(2, 4, 0, 2) || n == Setcr(2, 4, 1, 2) || n == Setcr(3, 0, 0, 0) || n == Setcr(5, 0, 0, 0)
    || n == Setcr(5, 0, 0, 1) || n == Setcr(5, 0, 1, 0) || n == Setcr(5, 0, 1, 1) || n == Setcr(5, 4, 1, 0)
    || n == Setcr(5, 4, 1, 1) || n == Setcr(5, 4, 2, 0) || n == Setcr(6, 0, 0, 0) || n == Setcr(6, 0, 0, 2)
    || n == Setcr(6, 4, 0, 0) || n == Setcr(6, 4, 0, 2) || n == Setcr(6, 4, 0, 4)
  }

  // Registers 10 to 13: memory remapping, vectors, process and thread.
  predicate OtherNamed(n: u32) {
    || n == Setcr(10, 0, 2, 0)
    || n == Setcr(10, 0, 2, 1) || n == Setcr(12, 0, 0, 0) || n == Setcr(12, 0, 0, 1) || n == Setcr(12, 0, 1, 0)
    || n == Setcr(12, 4, 0, 0) || n == Setcr(13, 0, 0, 0) || n == Setcr(13, 0, 0, 1) || n == Setcr(13, 0, 0, 3)
  }

  // CP15_PARSE64.
  function Parse64(n: u32): Reg {
    if n == Setcr64(2, 0) then At(Coord(0, 0, 2, 0))
    else if n == Setcr64(2, 1) then At(Coord(0, 1, 2, 0))
    else if n == Setcr64(2, 4) then At(Coord(0, 4, 2, 0))
    else if n == Setcr64(2, 6) then At(Coord(0, 6, 2, 0))
    else NoReg
  }

  // The name of the whole register: field bounds top:0.
  function FullName(name: u32, top: nat): u32
    requires top < 256
  {
    top * 0x100_0000 + name % 0x1_0000
  }

  // No two names access the same register.
  lemma ParseInjective(a: u32, b: u32)
    requires Parse(a).At? && Parse(a) == Parse(b)
    ensures a == b
  {
    NameOfCoord(a);
    NameOfCoord(b);
  }

  // The full name of the register an access reaches.
  function NameAt(c: Coord): int {
    if c == Coord(2, 0, 0, 0) then Setcr(2, 0, 0, 2)
    else if c == Coord(2, 0, 0, 1) then Setcr(2, 0, 0, 0)
    else if c == Coord(2, 0, 0, 2) then Setcr(2, 0, 0, 1)
    else 31 * 0x100_0000 + c.crn * 0x1000 + c.opc1 * 0x100 + c.crm * 0x10 + c.opc2
  }

  lemma NamesAreFull(n: u32)
    requires Named(n)
    ensures 0x1F00_0000 <= n < 0x1F01_0000
    ensures n != Setcr(2, 0, 0, 0) && n != Setcr(2, 0, 0, 1) && n != Setcr(2, 0, 0, 2)
  {
    hide IdNamed, FaultNamed, OtherNamed;
    if IdNamed(n) {
      IdNames(n);
    } else if FaultNamed(n) {
      FaultNames(n);
    } else {
      OtherNames(n);
    }
  }

  lemma IdNames(n: u32)
    requires IdNamed(n)
    ensures 0x1F00_0000 <= n < 0x1F00_2000
  {
  }

  lemma FaultNames(n: u32)
    requires FaultNamed(n)
    ensures 0x1F00_2400 <= n < 0x1F00_7000
  {
  }

  lemma OtherNames(n: u32)
    requires OtherNamed(n)
    ensures 0x1F00_A000 <= n < 0x1F00_E000
  {
  }

  lemma Digits(n: nat)
    requires n < 0x1_0000
    ensures n == n / 0x1000 % 16 * 0x1000 + n / 0x100 % 16 * 0x100 + n / 0x10 % 16 * 0x10 + n % 16
  {
    var a, b, c := n / 16, n / 16 / 16, n / 16 / 16 / 16;
    DivUnique(n, 0x100, b, a % 16 * 16 + n % 16);
    DivUnique(n, 0x1000, c, b % 16 * 0x100 + a % 16 * 16 + n % 16);
    DivUnique(c, 16, 0, c);
  }

  lemma DigitsOfName(n: u32)
    requires 0x1F00_0000 <= n < 0x1F01_0000
    ensures var l := n - 0x1F00_0000;
      n / 0x1000 % 16 == l / 0x1000 % 16 && n / 0x100 % 16 == l / 0x100 % 16
      && n / 0x10 % 16 == l / 0x10 % 16 && n % 16 == l % 16
  {
    var l := n - 0x1F00_0000;
    DivUnique(n, 0x1000, 0x1F000 + l / 0x1000, l % 0x1000);
    DivUnique(0x1F000 + l / 0x1000, 16, 0x1F00 + l / 0x1000 / 16, l / 0x1000 % 16);
    DivUnique(n, 0x100, 0x1F_0000 + l / 0x100, l % 0x100);
    DivUnique(0x1F_0000 + l / 0x100, 16, 0x1_F000 + l / 0x100 / 16, l / 0x100 % 16);
    DivUnique(n, 0x10, 0x1F0_0000 + l / 0x10, l % 0x10);
    DivUnique(0x1F0_0000 + l / 0x10, 16, 0x1F_0000 + l / 0x10 / 16, l / 0x10 % 16);
  }

  lemma NameOfCoord(n: u32)
    requires Parse(n).At?
    ensures NameAt(Parse(n).c) == n
  {
    hide Named;
    if Named(n) {
      NamesAreFull(n);
      DigitsOfName(n);
      Digits(n - 0x1F00_0000);
    }
  }

  // The coprocessor register an instruction with these operands reaches.
  function RegAt(bank: Bank32, crn: nat, opc1: nat, crm: nat, opc2: nat): u32 {
    Value32(bank, At(Coord(crn, opc1, crm, opc2)))
  }

  // What a name spells.
  lemma NameFields(crn: nat, opc1: nat, crm: nat, opc2: nat)
    requires crn < 16 && opc1 < 16 && crm < 16 && opc2 < 16
    ensures var n := Setcr(crn, opc1, crm, opc2);
      && Hsb(n) == 31 && Lsb(n) == 0 && FullName(n, 31) == n
      && n / 0x1000 % 16 == crn && n / 0x100 % 16 == opc1 && n / 0x10 % 16 == crm && n % 16 == opc2
  {
    var n := Setcr(crn, opc1, crm, opc2);
    var l := crn * 0x1000 + opc1 * 0x100 + crm * 0x10 + opc2;
    DivUnique(n, 0x100_0000, 31, l);
    DivUnique(n, 0x1_0000, 0x1F00, l);
    DivUnique(0x1F00, 0x100, 0x1F, 0);
    DivUnique(n, 0x1000, 0x1F000 + crn, l - crn * 0x1000);
    DivUnique(0x1F000 + crn, 16, 0x1F00, crn);
    DivUnique(n, 0x100, 0x1F_0000 + crn * 16 + opc1, crm * 0x10 + opc2);
    DivUnique(0x1F_0000 + crn * 16 + opc1, 16, 0x1_F000 + crn, opc1);
    DivUnique(n, 0x10, 0x1F0_0000 + crn * 0x100 + opc1 * 16 + crm, opc2);
    DivUnique(0x1F0_0000 + crn * 0x100 + opc1 * 16 + crm, 16, 0x1_F000 * 16 + crn * 16 + opc1, crm);
    DivUnique(n, 16, 0x1F0_0000 + crn * 0x100 + opc1 * 16 + crm, opc2);
  }

  // The name of a whole register reads the register that the instruction for it reaches.
  lemma ReadWhole(bank: Bank32, crn: nat, opc1: nat, crm: nat, opc2: nat)
    requires crn < 16 && opc1 < 16 && crm < 16 && opc2 < 16
    ensures var n := Setcr(crn, opc1, crm, opc2);
      && Legal(32, n) && ReadName32(bank, n) == Value32(bank, Parse(n))
      && (Named(n) ==> ReadName32(bank, n) == RegAt(bank, crn, opc1, crm, opc2))
  {
    hide GetField, Named, Pow2, Value32, Setcr, FullName, Hsb, Lsb, Parse;
    NameFields(crn, opc1, crm, opc2);
    var n := Setcr(crn, opc1, crm, opc2);
    Powers();
    WholeWord(32, Value32(bank, Parse(n)), 0);
    ParseNamed(n);
  }

  lemma ParseNamed(n: u32)
    ensures Named(n) ==> Parse(n) == At(Coord(n / 0x1000 % 16, n / 0x100 % 16, n / 0x10 % 16, n % 16))
  {
    hide Named;
    if Named(n) {
      NamesAreFull(n);
    }
  }

  // A name reaches the register whose instruction has the operands it spells, if it reaches any;
  // but TTBR0, TTBR1 and TTBCR reach TTBR1, TTBCR and TTBR0.
  lemma ParseSpells(crn: nat, opc1: nat, crm: nat, opc2: nat)
    requires crn < 16 && opc1 < 16 && crm < 16 && opc2 < 16
    ensures Parse(Setcr(crn, opc1, crm, opc2)).At? ==>
      Parse(Setcr(crn, opc1, crm, opc2))
        == At(Coord(crn, opc1, crm, if crn == 2 && opc1 == 0 && crm == 0 && opc2 < 3 then (opc2 + 1) % 3 else opc2))
  {
    hide Named, Parse, Setcr, NameAt;
    var n := Setcr(crn, opc1, crm, opc2);
    PermutedNames();
    if !(crn == 2 && opc1 == 0 && crm == 0 && opc2 < 3) && Parse(n).At? {
      NameFields(crn, opc1, crm, opc2);
      UnpermutedName(n);
    }
  }

  lemma PermutedNames()
    ensures Parse(Setcr(2, 0, 0, 0)) == At(Coord(2, 0, 0, 1)) && Parse(Setcr(2, 0, 0, 1)) == At(Coord(2, 0, 0, 2))
    ensures Parse(Setcr(2, 0, 0, 2)) == At(Coord(2, 0, 0, 0))
  {
    hide Named;
  }

  lemma UnpermutedName(n: u32)
    requires Parse(n).At?
    requires !(n / 0x1000 % 16 == 2 && n / 0x100 % 16 == 0 && n / 0x10 % 16 == 0 && n % 16 < 3)
    ensures Parse(n) == At(Coord(n / 0x1000 % 16, n / 0x100 % 16, n / 0x10 % 16, n % 16))
  {
    hide Named, Setcr;
    if n == Setcr(2, 0, 0, 0) {
      NameFields(2, 0, 0, 0);
    } else if n == Setcr(2, 0, 0, 1) {
      NameFields(2, 0, 0, 1);
    } else if n == Setcr(2, 0, 0, 2) {
      NameFields(2, 0, 0, 2);
    }
  }

  lemma Parse64Spells(crm: nat, opc1: nat)
    requires crm < 16 && opc1 < 16
    ensures Parse64(Setcr64(crm, opc1)).At? ==> Parse64(Setcr64(crm, opc1)) == At(Coord(0, opc1, crm, 0))
  {
    var n := Setcr64(crm, opc1);
    DivUnique(n - 63 * 0x100_0000, 0x100, opc1, crm * 0x10);
  }

  lemma Parse64Injective(a: u32, b: u32)
    requires Parse64(a).At? && Parse64(a) == Parse64(b)
    ensures a == b
  {
  }

  // ---------------------------------------------------------------------------------------
  // Reads and writes
  // ---------------------------------------------------------------------------------------

  type Bank32 = map<Coord, u32>
  type Bank64 = map<Coord, u64>

  function Value32(bank: Bank32, r: Reg): u32 {
    if r.At? && r.c in bank then bank[r.c] else 0
  }

  function Value64(bank: Bank64, r: Reg): u64 {
    if r.At? && r.c in bank then bank[r.c] else 0
  }

  // Reading a name: the field of the register the name denotes, 0 for an unknown name.
  function ReadName32(bank: Bank32, name: u32): u32
    requires Legal(32, name)
  {
    FieldFits32(Value32(bank, Parse(FullName(name, 31))), Hsb(name), Lsb(name), 0);
    GetField(32, Value32(bank, Parse(FullName(name, 31))), Hsb(name), Lsb(name))
  }

  function ReadName64(bank: Bank64, name: u32): u64
    requires Legal(64, name)
  {
    FieldFits64(Value64(bank, Parse64(FullName(name, 63))), Hsb(name), Lsb(name), 0);
    GetField(64, Value64(bank, Parse64(FullName(name, 63))), Hsb(name), Lsb(name))
  }

  // Writing a name: that field of that register, nothing for an unknown name.
  function WriteName32(bank: Bank32, name: u32, value: u32): Bank32
    requires Legal(32, name)
  {
    var r := Parse(FullName(name, 31));
    if r.NoReg? then bank
    else
      FieldFits32(Value32(bank, r), Hsb(name), Lsb(name), value);
      bank[r.c := SetField(32, Value32(bank, r), Hsb(name), Lsb(name), value)]
  }

  function WriteName64(bank: Bank64, name: u32, value: u64): Bank64
    requires Legal(64, name)
  {
    var r := Parse64(FullName(name, 63));
    if r.NoReg? then bank
    else
      FieldFits64(Value64(bank, r), Hsb(name), Lsb(name), value);
      bank[r.c := SetField(64, Value64(bank, r), Hsb(name), Lsb(name), value)]
  }

  lemma FieldFits32(src: nat, msb: nat, lsb: nat, f: nat)
    requires msb < 32 && lsb < 32
    ensures SetField(32, src, msb, lsb, f) < 0x1_0000_0000 && GetField(32, src, msb, lsb) < 0x1_0000_0000
  {
    Powers();
    FieldBounds(32, src, msb, lsb, f);
  }

  lemma FieldFits64(src: nat, msb: nat, lsb: nat, f: nat)
    requires msb < 64 && lsb < 64
    ensures SetField(64, src, msb, lsb, f) < 0x1_0000_0000_0000_0000
      && GetField(64, src, msb, lsb) < 0x1_0000_0000_0000_0000
  {
    Powers();
    FieldBounds(64, src, msb, lsb, f);
  }

  // The whole word is a field too.
  lemma WholeWord(w: nat, x: nat, y: nat)
    requires w > 0 && x < Pow2(w) && y < Pow2(w)
    ensures GetField(w, x, w - 1, 0) == x && SetField(w, x, w - 1, 0, y) == y
  {
    FieldBounds(w, x, w - 1, 0, y);
    forall i: nat | i < w
      ensures Bit(GetField(w, x, w - 1, 0), i) == Bit(x, i)
      ensures Bit(SetField(w, x, w - 1, 0, y), i) == Bit(y, i)
    {
      GetFieldBit(w, x, w - 1, 0, i);
      SetFieldBit(w, x, w - 1, 0, y, i);
    }
    BitsDecide(w, GetField(w, x, w - 1, 0), x);
    BitsDecide(w, SetField(w, x, w - 1, 0, y), y);
  }

  // A name reads back what was written to it, cut to the field; every name of another register
  // and every disjoint field of the same register reads as before.
  lemma ReadAfterWrite32(bank: Bank32, a: u32, b: u32, value: u32)
    requires Legal(32, a) && Legal(32, b) && Parse(FullName(a, 31)).At?
    ensures a == b ==> ReadName32(WriteName32(bank, a, value), b) == Low(Hsb(a) - Lsb(a) + 1, value)
    ensures FullName(a, 31) != FullName(b, 31) || Hsb(a) < Lsb(b) || Hsb(b) < Lsb(a) ==>
      ReadName32(WriteName32(bank, a, value), b) == ReadName32(bank, b)
  {
    hide Parse, GetField, SetField;
    var old32 := Value32(bank, Parse(FullName(a, 31)));
    if a == b {
      GetAfterSet(32, old32, Hsb(a), Lsb(a), value);
    }
    if FullName(a, 31) != FullName(b, 31) {
      if Parse(FullName(a, 31)) == Parse(FullName(b, 31)) {
        ParseInjective(FullName(a, 31), FullName(b, 31));
      }
    } else if Hsb(a) < Lsb(b) || Hsb(b) < Lsb(a) {
      GetDisjointAfterSet(32, old32, Hsb(a), Lsb(a), value, Hsb(b), Lsb(b));
    }
  }

  lemma ReadAfterWrite64(bank: Bank64, a: u32, b: u32, value: u64)
    requires Legal(64, a) && Legal(64, b) && Parse64(FullName(a, 63)).At?
    ensures a == b ==> ReadName64(WriteName64(bank, a, value), b) == Low(Hsb(a) - Lsb(a) + 1, value)
    ensures FullName(a, 63) != FullName(b, 63) || Hsb(a) < Lsb(b) || Hsb(b) < Lsb(a) ==>
      ReadName64(WriteName64(bank, a, value), b) == ReadName64(bank, b)
  {
    hide Parse64, GetField, SetField;
    var old64 := Value64(bank, Parse64(FullName(a, 63)));
    if a == b {
      GetAfterSet(64, old64, Hsb(a), Lsb(a), value);
    }
    if FullName(a, 63) != FullName(b, 63) {
      if Parse64(FullName(a, 63)) == Parse64(FullName(b, 63)) {
        Parse64Injective(FullName(a, 63), FullName(b, 63));
      }
    } else if Hsb(a) < Lsb(b) || Hsb(b) < Lsb(a) {
      GetDisjointAfterSet(64, old64, Hsb(a), Lsb(a), value, Hsb(b), Lsb(b));
    }
  }

  // ---------------------------------------------------------------------------------------
  // vmm/cp15.c
  // ---------------------------------------------------------------------------------------

  // Writing the top bit number to bits 31:24 and clearing bits 23:16 gives the full name.
  lemma FullNameFields(name: u32, top: nat)
    requires top < 256
    ensures SetField(32, SetField(32, name, 31, 24, top), 23, 16, 0) == FullName(name, top)
  {
    hide SetField, Pow2;
    Powers();
    SetIs(32, name, 31, 24, top, 0x1_0000_0000, 0x100_0000, 0x100);
    var n1 := top * 0x100_0000 + name % 0x100_0000;
    DivUnique(name, 0x1_0000_0000, 0, name);
    DivUnique(top, 0x100, 0, top);
    SetIs(32, n1, 23, 16, 0, 0x100_0000, 0x1_0000, 0x100);
    var l, r := name % 0x100_0000, name % 0x1_0000;
    DivUnique(n1, 0x100_0000, top, l);
    DivUnique(name, 0x1_0000, name / 0x1_0000, r);
    DivUnique(n1, 0x1_0000, top * 0x100 + l / 0x1_0000, l % 0x1_0000);
    DivUnique(name, 0x1_0000, name / 0x100_0000 * 0x100 + l / 0x1_0000, l % 0x1_0000);
  }

  method CodeFullName(name: u32, top: nat) returns (fullName: u32)
    requires top < 256
    ensures fullName == FullName(name, top)
  {
    hide SetField;
    FullNameFields(name, top);
    var n := SetField(32, name, 31, 24, top);
    fullName := SetField(32, n, 23, 16, 0);
  }

  // A name equals its full name exactly when it names the whole register.
  lemma WholeName(name: u32, top: nat)
    requires top < 256
    ensures name == FullName(name, top) <==> Hsb(name) == top && Lsb(name) == 0
  {
    var h, l, r := name / 0x100_0000, name / 0x1_0000 % 0x100, name % 0x1_0000;
    DivUnique(name / 0x1_0000, 0x100, h, l);
  }

  class Coprocessor {
    var bank: Bank32
    var bank64: Bank64

    constructor ()
      ensures bank == map[] && bank64 == map[]
    {
      bank, bank64 := map[], map[];
    }

    // cp15_read
    method Read(name: u32) returns (r: u32)
      requires Legal(32, name)
      ensures r == ReadName32(bank, name)
    {
      hide Parse, GetField;
      var fullName := CodeFullName(name, 31);
      var reg := 0;
      var at := Parse(fullName);
      if at.At? {
        reg := Value32(bank, at);
      }
      FieldFits32(reg, Hsb(name), Lsb(name), 0);
      r := GetField(32, reg, Hsb(name), Lsb(name));
    }

    // cp15_read64
    method Read64(name: u32) returns (r: u64)
      requires Legal(64, name)
      ensures r == ReadName64(bank64, name)
    {
      hide Parse64, GetField;
      var fullName := CodeFullName(name, 63);
      var reg := 0;
      var at := Parse64(fullName);
      if at.At? {
        reg := Value64(bank64, at);
      }
      FieldFits64(reg, Hsb(name), Lsb(name), 0);
      r := GetField(64, reg, Hsb(name), Lsb(name));
    }

    // cp15_write
    method Write(name: u32, value: u32)
      requires Legal(32, name)
      modifies this`bank
      ensures bank == WriteName32(old(bank), name, value)
    {
      hide Parse, GetField, SetField, Pow2;
      var fullName := CodeFullName(name, 31);
      FullNameIsLegal(name, 31);
      WholeName(name, 31);
      Powers();
      var reg;
      if fullName != name {
        reg := Read(fullName);
        WholeWord(32, Value32(bank, Parse(fullName)), 0);
        FieldFits32(reg, Hsb(name), Lsb(name), value);
        reg := SetField(32, reg, Hsb(name), Lsb(name), value);
      } else {
        WholeWord(32, Value32(bank, Parse(fullName)), value);
        reg := value;
      }
      var at := Parse(fullName);
      if at.At? {
        bank := bank[at.c := reg];
      }
    }

    // cp15_write64
    method Write64(name: u32, value: u64)
      requires Legal(64, name)
      modifies this`bank64
      ensures bank64 == WriteName64(old(bank64), name, value)
    {
      hide Parse64, GetField, SetField, Pow2;
      var fullName := CodeFullName(name, 63);
      FullNameIsLegal(name, 63);
      WholeName(name, 63);
      Powers();
      var reg;
      if fullName != name {
        reg := Read64(fullName);
        WholeWord(64, Value64(bank64, Parse64(fullName)), 0);
        FieldFits64(reg, Hsb(name), Lsb(name), value);
        reg := SetField(64, reg, Hsb(name), Lsb(name), value);
      } else {
        WholeWord(64, Value64(bank64, Parse64(fullName)), value);
        reg := value;
      }
      var at := Parse64(fullName);
      if at.At? {
        bank64 := bank64[at.c := reg];
      }
    }
  }

  lemma FullNameIsLegal(name: u32, top: nat)
    requires top < 256
    ensures Hsb(FullName(name, top)) == top && Lsb(FullName(name, top)) == 0
    ensures FullName(FullName(name, top), top) == FullName(name, top)
  {
    var r := name % 0x1_0000;
    DivUnique(FullName(name, top), 0x100_0000, top, r);
    DivUnique(FullName(name, top), 0x1_0000, top * 0x100, r);
    DivUnique(top * 0x100, 0x100, top, 0);
  }
}
