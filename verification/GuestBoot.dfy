// What a guest does first: it executes the boot code that the loaders have put at its entry point,
// and enters its kernel.
module GuestBoot {
  import opened Options
  import opened BitOps
  import opened PhysMem
  import opened Walker

  // The streams and tables at an address, as the guest reads them through its table.
  ghost predicate ReadsBytes(m: Words, vttbr: u64, at: nat, bytes: seq<byte>) {
    forall j :: 0 <= j < |bytes| ==> ReadsByte(m, vttbr, at + j, bytes[j])
  }

  ghost predicate ReadsWords(m: Words, vttbr: u64, at: nat, words: seq<u32>) {
    forall k :: 0 <= k < |words| ==> ReadsWord(m, vttbr, at + 4 * k, words[k])
  }

  predicate ReadsByte(m: Words, vttbr: u64, x: int, b: byte) {
    0 <= x < 0x1_0000_0000 && LoadVia(m, vttbr, x) == Some(b)
  }

  predicate ReadsWord(m: Words, vttbr: u64, x: int, d: u32) {
    0 <= x < 0x1_0000_0000 && WordVia(m, vttbr, x) == Some(d)
  }

  // The first page of a guest's RAM, at physical address base: boot code and tags.
  ghost predicate BootPage(m: Words, base: nat, memSize: u32, initrdSize: u32) {
    && HasWords(m, base, [0xe3a00000, 0xe3a01069, 0xe3811c07, 0xe59f2000, 0xe59ff000, 0x7000_0100, 0x7001_0000])
    && HasWords(m, base + 0x100, [5, 0x54410001, 1, 0x1000, 0])
    && HasWords(m, base + 0x114, [4, 0x54410002, memSize, 0x7000_0000])
    && HasWords(m, base + 0x124, [4, 0x54420005, 0x70D0_0000, initrdSize])
    && HasWords(m, base + 0x134, [0, 0])
  }

  ghost predicate HasWords(m: Words, at: nat, words: seq<u32>) {
    forall k :: 0 <= k < |words| ==> LoadW(m, at + 4 * k) == words[k]
  }

  // The loaded image behind the entry point: the boot code with the addresses of the tags at +0x14
  // and of the kernel at +0x18; the tags with the memory at 0x70000000 and the initrd.
  ghost predicate Boots(m: Words, vttbr: u64, entry: u32, memSize: u32, kernel: seq<byte>, initrd: seq<byte>) {
    && |initrd| < 0x1_0000_0000
    && ReadsWords(m, vttbr, entry, [0xe3a00000, 0xe3a01069, 0xe3811c07, 0xe59f2000, 0xe59ff000])
    && ReadsWords(m, vttbr, entry + 0x14, [0x7000_0100, 0x7001_0000])
    && ReadsBytes(m, vttbr, 0x7001_0000, kernel)
    && ReadsWords(m, vttbr, 0x7000_0100, [5, 0x54410001, 1, 0x1000, 0])
    && ReadsWords(m, vttbr, 0x7000_0114, [4, 0x54410002, memSize, 0x7000_0000])
    && ReadsWords(m, vttbr, 0x7000_0124, [4, 0x54420005, 0x70D0_0000, |initrd|])
    && ReadsWords(m, vttbr, 0x7000_0134, [0, 0])
    && ReadsBytes(m, vttbr, 0x70D0_0000, initrd)
  }

  lemma PartInMemory(m: Words, at: nat, words: seq<u32>, lo: nat, hi: nat)
    requires HasWords(m, at, words) && lo <= hi <= |words|
    ensures HasWords(m, at + 4 * lo, words[lo..hi])
  {
    hide LoadW;
    forall k | 0 <= k < hi - lo
      ensures LoadW(m, at + 4 * lo + 4 * k) == words[lo..hi][k]
    {
      assert at + 4 * (lo + k) == at + 4 * lo + 4 * k;
    }
  }

  lemma PartOfWords(m: Words, vttbr: u64, at: nat, words: seq<u32>, lo: nat, hi: nat)
    requires ReadsWords(m, vttbr, at, words) && lo <= hi <= |words|
    ensures ReadsWords(m, vttbr, at + 4 * lo, words[lo..hi])
  {
    hide ReadsWord;
    forall k | 0 <= k < hi - lo
      ensures ReadsWord(m, vttbr, at + 4 * lo + 4 * k, words[lo..hi][k])
    {
      assert at + 4 * (lo + k) == at + 4 * lo + 4 * k;
    }
  }

  // ---------------------------------------------------------------------------------------
  // The instructions of the boot code (ARM Architecture Reference Manual, DDI 0406C, section A8.8)
  // ---------------------------------------------------------------------------------------

  // r0 to r14 and the address of the next instruction.
  datatype Cpu = Cpu(r: seq<u32>, pc: u32)

  // A modified immediate: eight bits, rotated right by twice the upper four.
  function Immediate(imm12: nat): u32 {
    var k, x := imm12 / 0x100 % 0x10 * 2, imm12 % 0x100;
    (x * Pow2(32 - k) + x / Pow2(k)) % 0x1_0000_0000
  }

  // Writing register rd; register 15 is the program counter.
  function Put(c: Cpu, rd: nat, value: u32): Cpu
    requires |c.r| == 15
  {
    if rd < 15 then Cpu(c.r[rd := value], (c.pc + 4) % 0x1_0000_0000) else c.(pc := value)
  }

  // MOV rd, #imm; ORR rd, rn, #imm; LDR rd, [pc, #imm].
  function Execute(m: Words, vttbr: u64, c: Cpu): (d: Option<Cpu>)
    requires |c.r| == 15
    ensures d.Some? ==> |d.value.r| == 15
  {
    match WordVia(m, vttbr, c.pc)
    case None => None
    case Some(inst) =>
      var op, rn, rd, imm12 := inst / 0x10_0000, inst / 0x1_0000 % 0x10, inst / 0x1000 % 0x10, inst % 0x1000;
      if op == 0xE3A then Some(Put(c, rd, Immediate(imm12)))
      else if op == 0xE38 && rn < 15 then
        WordOr(c.r[rn], Immediate(imm12));
        Some(Put(c, rd, Or(32, c.r[rn], Immediate(imm12))))
      else if op == 0xE59 && rn == 15 then
        match WordVia(m, vttbr, (c.pc / 4 * 4 + 8 + imm12) % 0x1_0000_0000)
        case None => None
        case Some(v) => Some(Put(c, rd, v))
      else None
  }

  lemma WordOr(x: u32, y: u32)
    ensures Or(32, x, y) < 0x1_0000_0000
  {
    hide Or, Pow2;
    Powers();
    WordBounds(32, x, y);
  }

  function Executes(m: Words, vttbr: u64, c: Cpu, n: nat): (d: Option<Cpu>)
    requires |c.r| == 15
    ensures d.Some? ==> |d.value.r| == 15
  {
    if n == 0 then Some(c)
    else match Executes(m, vttbr, c, n - 1)
    case None => None
    case Some(d) => Execute(m, vttbr, d)
  }

  lemma {:induction false} OrCommutes(n: nat, x: nat, y: nat)
    ensures Or(n, x, y) == Or(n, y, x)
  {
    if n > 0 {
      OrCommutes(n - 1, x / 2, y / 2);
    }
  }

  // The constants of the boot code: 0 and the machine number 0x769.
  lemma Constants()
    ensures Immediate(0) == 0 && Immediate(0x069) == 0x69 && Immediate(0xC07) == 0x700
  {
    hide Pow2;
    Powers();
  }

  lemma MachineNumber()
    ensures Or(32, 0x69, 0x700) == 0x769
  {
    hide Pow2, Or, Low, Shl;
    Powers();
    ShlIsMul(7, 8);
    LowIs(32, 0x700, 0x1_0000_0000);
    OrIs(32, 7, 8, 0x69, 0x100);
    OrCommutes(32, 0x69, 0x700);
  }

  lemma TableWord(m: Words, vttbr: u64, at: nat, words: seq<u32>, k: nat)
    requires ReadsWords(m, vttbr, at, words) && k < |words|
    ensures at + 4 * k < 0x1_0000_0000 && WordVia(m, vttbr, at + 4 * k) == Some(words[k])
  {
  }

  // The fields of an instruction word.
  lemma InstructionFields(op: nat, rn: nat, rd: nat, imm12: nat)
    requires rn < 16 && rd < 16 && imm12 < 0x1000
    ensures var inst := op * 0x10_0000 + rn * 0x1_0000 + rd * 0x1000 + imm12;
      inst / 0x10_0000 == op && inst / 0x1_0000 % 0x10 == rn && inst / 0x1000 % 0x10 == rd && inst % 0x1000 == imm12
  {
    var inst := op * 0x10_0000 + rn * 0x1_0000 + rd * 0x1000 + imm12;
    DivUnique(inst, 0x10_0000, op, rn * 0x1_0000 + rd * 0x1000 + imm12);
    DivUnique(inst, 0x1_0000, op * 16 + rn, rd * 0x1000 + imm12);
    DivUnique(op * 16 + rn, 0x10, op, rn);
    DivUnique(inst, 0x1000, op * 0x100 + rn * 16 + rd, imm12);
    DivUnique(op * 0x100 + rn * 16 + rd, 0x10, op * 16 + rn, rd);
  }

  lemma StepMov(m: Words, vttbr: u64, c: Cpu, rd: nat, imm12: nat)
    requires |c.r| == 15 && rd < 16 && imm12 < 0x1000
    requires WordVia(m, vttbr, c.pc) == Some(0xE3A0_0000 + rd * 0x1000 + imm12)
    ensures Execute(m, vttbr, c) == Some(Put(c, rd, Immediate(imm12)))
  {
    hide WordVia, Immediate, Or;
    InstructionFields(0xE3A, 0, rd, imm12);
  }

  lemma StepOrr(m: Words, vttbr: u64, c: Cpu, rn: nat, rd: nat, imm12: nat)
    requires |c.r| == 15 && rn < 15 && rd < 15 && imm12 < 0x1000
    requires WordVia(m, vttbr, c.pc) == Some(0xE380_0000 + rn * 0x1_0000 + rd * 0x1000 + imm12)
    ensures Or(32, c.r[rn], Immediate(imm12)) < 0x1_0000_0000
    ensures Execute(m, vttbr, c) == Some(Put(c, rd, Or(32, c.r[rn], Immediate(imm12))))
  {
    hide WordVia, Immediate, Or;
    InstructionFields(0xE38, rn, rd, imm12);
    WordOr(c.r[rn], Immediate(imm12));
  }

  lemma StepLdr(m: Words, vttbr: u64, c: Cpu, rd: nat, v: u32)
    requires |c.r| == 15 && rd < 16 && c.pc % 4 == 0 && c.pc < 0x8000_0000
    requires WordVia(m, vttbr, c.pc) == Some(0xE59F_0000 + rd * 0x1000) && WordVia(m, vttbr, c.pc + 8) == Some(v)
    ensures Execute(m, vttbr, c) == Some(Put(c, rd, v))
  {
    hide WordVia, Immediate, Or;
    InstructionFields(0xE59, 15, rd, 0);
  }

  // Five instructions after its entry at 0x70000000 the guest is at the first byte of its kernel,
  // with 0 in r0, the machine number in r1 and the address of its tags in r2.
  lemma EntersKernel(m: Words, vttbr: u64, c: Cpu, memSize: u32, kernel: seq<byte>, initrd: seq<byte>)
    requires Boots(m, vttbr, 0x7000_0000, memSize, kernel, initrd) && |c.r| == 15 && c.pc == 0x7000_0000
    ensures Executes(m, vttbr, c, 5) == Some(Cpu(c.r[0 := 0][1 := 0x769][2 := 0x7000_0100], 0x7001_0000))
    ensures kernel != [] ==> LoadVia(m, vttbr, 0x7001_0000) == Some(kernel[0])
  {
    hide WordVia, LoadVia, Immediate, Or, ReadsWords, Execute;
    Constants();
    MachineNumber();
    CodeWords(m, vttbr, memSize, kernel, initrd);
    StepMov(m, vttbr, c, 0, 0);
    var c1 := Put(c, 0, 0);
    StepMov(m, vttbr, c1, 1, 0x069);
    var c2 := Put(c1, 1, 0x69);
    StepOrr(m, vttbr, c2, 1, 1, 0xC07);
    var c3 := Put(c2, 1, 0x769);
    StepLdr(m, vttbr, c3, 2, 0x7000_0100);
    var c4 := Put(c3, 2, 0x7000_0100);
    StepLdr(m, vttbr, c4, 15, 0x7001_0000);
    FiveSteps(m, vttbr, c, c1, c2, c3, c4, Put(c4, 15, 0x7001_0000));
    assert c4.r == c.r[0 := 0][1 := 0x769][2 := 0x7000_0100];
  }

  lemma FiveSteps(m: Words, vttbr: u64, c: Cpu, c1: Cpu, c2: Cpu, c3: Cpu, c4: Cpu, c5: Cpu)
    requires |c.r| == |c1.r| == |c2.r| == |c3.r| == |c4.r| == 15
    requires Execute(m, vttbr, c) == Some(c1) && Execute(m, vttbr, c1) == Some(c2)
    requires Execute(m, vttbr, c2) == Some(c3) && Execute(m, vttbr, c3) == Some(c4)
    requires Execute(m, vttbr, c4) == Some(c5)
    ensures Executes(m, vttbr, c, 5) == Some(c5)
  {
    hide Execute;
    assert Executes(m, vttbr, c, 1) == Some(c1);
    assert Executes(m, vttbr, c, 2) == Some(c2);
    assert Executes(m, vttbr, c, 3) == Some(c3);
    assert Executes(m, vttbr, c, 4) == Some(c4);
  }

  lemma CodeWords(m: Words, vttbr: u64, memSize: u32, kernel: seq<byte>, initrd: seq<byte>)
    requires Boots(m, vttbr, 0x7000_0000, memSize, kernel, initrd)
    ensures WordVia(m, vttbr, 0x7000_0000) == Some(0xE3A0_0000)
    ensures WordVia(m, vttbr, 0x7000_0004) == Some(0xE3A0_1069)
    ensures WordVia(m, vttbr, 0x7000_0008) == Some(0xE381_1C07)
    ensures WordVia(m, vttbr, 0x7000_000C) == Some(0xE59F_2000)
    ensures WordVia(m, vttbr, 0x7000_0010) == Some(0xE59F_F000)
    ensures WordVia(m, vttbr, 0x7000_0014) == Some(0x7000_0100)
    ensures WordVia(m, vttbr, 0x7000_0018) == Some(0x7001_0000)
  {
    hide WordVia, LoadVia, ReadsWords;
    var code := [0xe3a00000, 0xe3a01069, 0xe3811c07, 0xe59f2000, 0xe59ff000];
    TableWord(m, vttbr, 0x7000_0000, code, 0);
    TableWord(m, vttbr, 0x7000_0000, code, 1);
    TableWord(m, vttbr, 0x7000_0000, code, 2);
    TableWord(m, vttbr, 0x7000_0000, code, 3);
    TableWord(m, vttbr, 0x7000_0000, code, 4);
    TableWord(m, vttbr, 0x7000_0014, [0x7000_0100, 0x7001_0000], 0);
    TableWord(m, vttbr, 0x7000_0014, [0x7000_0100, 0x7001_0000], 1);
  }
}
