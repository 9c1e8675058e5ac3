// The coprocessor registers a switch saves and restores (guests/guest.c, guest_backup_cp15 and
// guest_restore_cp15), as reads and writes of register names.
module SaveSet {
  import opened BitOps
  import opened Cp15
  import opened Machine

  // The names in the order of the code.
  const SAVED: seq<u32> := [
    CSSELR, SCTLR, TTBR0, TTBR1, TTBCR, DACR, DFSR, IFSR, DFAR, IFAR, PRRR, NMRR, FCSEIDR, CONTEXTIDR, TPIDR_URO]

  function SavedField(c: CpSet, k: nat): u32
    requires k < 15
  {
    [c.csselr, c.sctlr, c.ttbr0, c.ttbr1, c.ttbcr, c.dacr, c.dfsr, c.ifsr, c.dfar, c.ifar, c.prrr, c.nmrr,
     c.fcseidr, c.contextidr, c.tpidrUro][k]
  }

  lemma SavedNames(k: nat)
    requires k < 15
    ensures |SAVED| == 15 && Legal(32, SAVED[k]) && Hsb(SAVED[k]) == 31 && Lsb(SAVED[k]) == 0
    ensures FullName(SAVED[k], 31) == SAVED[k] && Parse(SAVED[k]).At?
  {
    hide Parse;
    var l := SAVED[k] - 0x1F00_0000;
    assert 0 <= l < 0x1_0000;
    WordName(l);
    SavedParse();
  }

  lemma WordName(l: nat)
    requires l < 0x1_0000
    ensures var n := 0x1F00_0000 + l; Hsb(n) == 31 && Lsb(n) == 0 && FullName(n, 31) == n
  {
    DivUnique(0x1F00_0000 + l, 0x100_0000, 31, l);
    DivUnique(0x1F00_0000 + l, 0x1_0000, 0x1F00, l);
    DivUnique(0x1F00, 0x100, 0x1F, 0);
  }

  predicate Permuted(n: u32) {
    n == TTBR0 || n == TTBR1 || n == TTBCR
  }

  lemma Parses(n: u32)
    requires Named(n) || Permuted(n)
    ensures Parse(n).At?
  {
    hide Named;
  }

  lemma SavedParse()
    ensures Parse(CSSELR).At? && Parse(SCTLR).At? && Parse(TTBR0).At? && Parse(TTBR1).At? && Parse(TTBCR).At?
    ensures Parse(DACR).At? && Parse(DFSR).At? && Parse(IFSR).At? && Parse(DFAR).At? && Parse(IFAR).At?
    ensures Parse(PRRR).At? && Parse(NMRR).At? && Parse(FCSEIDR).At? && Parse(CONTEXTIDR).At? && Parse(TPIDR_URO).At?
  {
    hide Parse;
    Parses(CSSELR); Parses(SCTLR); Parses(TTBR0); Parses(TTBR1); Parses(TTBCR);
    Parses(DACR); Parses(DFSR); Parses(IFSR); Parses(DFAR); Parses(IFAR);
    Parses(PRRR); Parses(NMRR); Parses(FCSEIDR); Parses(CONTEXTIDR); Parses(TPIDR_URO);
  }

  lemma SavedDistinct(k: nat, j: nat)
    requires k < 15 && j < 15 && k != j
    ensures |SAVED| == 15 && SAVED[k] != SAVED[j]
  {
  }

  lemma SavedLegal()
    ensures Legal(32, CSSELR) && Legal(32, SCTLR) && Legal(32, TTBR0) && Legal(32, TTBR1) && Legal(32, TTBCR)
    ensures Legal(32, DACR) && Legal(32, DFSR) && Legal(32, IFSR) && Legal(32, DFAR) && Legal(32, IFAR)
    ensures Legal(32, PRRR) && Legal(32, NMRR) && Legal(32, FCSEIDR) && Legal(32, CONTEXTIDR) && Legal(32, TPIDR_URO)
  {
  }

  // The set as the coprocessor holds it.
  function CpView(bank: Bank32): CpSet {
    SavedLegal();
    CpSet(ReadName32(bank, CSSELR), ReadName32(bank, SCTLR), ReadName32(bank, TTBR0), ReadName32(bank, TTBR1),
          ReadName32(bank, TTBCR), ReadName32(bank, DACR), ReadName32(bank, DFSR), ReadName32(bank, IFSR),
          ReadName32(bank, DFAR), ReadName32(bank, IFAR), ReadName32(bank, PRRR), ReadName32(bank, NMRR),
          ReadName32(bank, FCSEIDR), ReadName32(bank, CONTEXTIDR), ReadName32(bank, TPIDR_URO))
  }

  lemma NamedSaved()
    ensures Named(CSSELR) && Named(SCTLR) && Named(DACR) && Named(DFSR) && Named(IFSR) && Named(DFAR) && Named(IFAR)
    ensures Named(PRRR) && Named(NMRR) && Named(FCSEIDR) && Named(CONTEXTIDR) && Named(TPIDR_URO)
  {
  }

  // Which coprocessor registers those are: CSSELR, SCTLR, the three the instructions permute, DACR,
  // DFSR, IFSR, DFAR, IFAR, PRRR, NMRR, FCSEIDR, CONTEXTIDR, TPIDRURO.
  lemma SavedRegisters(bank: Bank32)
    ensures CpView(bank) == CpSet(
      RegAt(bank, 0, 2, 0, 0), RegAt(bank, 1, 0, 0, 0), RegAt(bank, 2, 0, 0, 1), RegAt(bank, 2, 0, 0, 2),
      RegAt(bank, 2, 0, 0, 0), RegAt(bank, 3, 0, 0, 0), RegAt(bank, 5, 0, 0, 0), RegAt(bank, 5, 0, 0, 1),
      RegAt(bank, 6, 0, 0, 0), RegAt(bank, 6, 0, 0, 2), RegAt(bank, 10, 0, 2, 0), RegAt(bank, 10, 0, 2, 1),
      RegAt(bank, 13, 0, 0, 0), RegAt(bank, 13, 0, 0, 1), RegAt(bank, 13, 0, 0, 3))
  {
    hide ReadName32, Value32, Named, Parse;
    NamedSaved();
    PermutedNames();
    ReadWhole(bank, 0, 2, 0, 0);
    ReadWhole(bank, 1, 0, 0, 0);
    ReadWhole(bank, 2, 0, 0, 0);
    ReadWhole(bank, 2, 0, 0, 1);
    ReadWhole(bank, 2, 0, 0, 2);
    ReadWhole(bank, 3, 0, 0, 0);
    ReadWhole(bank, 5, 0, 0, 0);
    ReadWhole(bank, 5, 0, 0, 1);
    ReadWhole(bank, 6, 0, 0, 0);
    ReadWhole(bank, 6, 0, 0, 2);
    ReadWhole(bank, 10, 0, 2, 0);
    ReadWhole(bank, 10, 0, 2, 1);
    ReadWhole(bank, 13, 0, 0, 0);
    ReadWhole(bank, 13, 0, 0, 1);
    ReadWhole(bank, 13, 0, 0, 3);
  }

  function Vttbr(bank: Bank64): u64 {
    FullVttbr();
    ReadName64(bank, VTTBR_LPAE)
  }

  lemma FullVttbr()
    ensures Legal(64, VTTBR_LPAE) && Hsb(VTTBR_LPAE) == 63 && Lsb(VTTBR_LPAE) == 0
    ensures FullName(VTTBR_LPAE, 63) == VTTBR_LPAE && Parse64(VTTBR_LPAE) == At(Coord(0, 6, 2, 0))
    ensures Legal(64, VTTBR_LPAE_VMID) && Hsb(VTTBR_LPAE_VMID) == 55 && Lsb(VTTBR_LPAE_VMID) == 48
    ensures FullName(VTTBR_LPAE_VMID, 63) == VTTBR_LPAE
  {
  }

  // The instruction that reaches it has opc1 6 and CRm 2.
  lemma VttbrRegister(bank: Bank64)
    ensures Vttbr(bank) == Value64(bank, At(Coord(0, 6, 2, 0)))
  {
    hide Parse64, FullName, Hsb, Lsb, GetField, Pow2;
    FullVttbr();
    Powers();
    WholeWord(64, Value64(bank, Parse64(VTTBR_LPAE)), 0);
  }

  // The first n registers have been written back.
  ghost predicate Restored(bank: Bank32, c: CpSet, n: nat)
    requires n <= 15
  {
    forall k :: 0 <= k < n ==> |SAVED| == 15 && Legal(32, SAVED[k]) && ReadName32(bank, SAVED[k]) == SavedField(c, k)
  }

  // Every name of a register outside the set reads the same.
  ghost predicate OthersKept(bank: Bank32, bank': Bank32) {
    forall name: u32 :: Legal(32, name) && FullName(name, 31) !in SAVED ==>
      ReadName32(bank', name) == ReadName32(bank, name)
  }

  lemma WholeValue(v: u32)
    ensures Low(32, v) == v
  {
    hide Low, Pow2;
    Powers();
    LowIs(32, v, 0x1_0000_0000);
    DivUnique(v, 0x1_0000_0000, 0, v);
  }

  lemma RestoreOne(bank0: Bank32, bank: Bank32, c: CpSet, n: nat)
    requires n < 15 && Restored(bank, c, n) && OthersKept(bank0, bank)
    ensures |SAVED| == 15 && Legal(32, SAVED[n])
    ensures Restored(WriteName32(bank, SAVED[n], SavedField(c, n)), c, n + 1)
    ensures OthersKept(bank0, WriteName32(bank, SAVED[n], SavedField(c, n)))
  {
    hide Parse, ReadName32, WriteName32, FullName, Hsb, Lsb, SavedField, Legal, Low, Pow2;
    SavedNames(n);
    var v := SavedField(c, n);
    var bank' := WriteName32(bank, SAVED[n], v);
    forall k | 0 <= k <= n
      ensures |SAVED| == 15 && Legal(32, SAVED[k]) && ReadName32(bank', SAVED[k]) == SavedField(c, k)
    {
      SavedNames(k);
      ReadAfterWrite32(bank, SAVED[n], SAVED[k], v);
      if k < n {
        SavedDistinct(k, n);
      } else {
        WholeValue(v);
      }
    }
    forall name: u32 | Legal(32, name) && FullName(name, 31) !in SAVED
      ensures ReadName32(bank', name) == ReadName32(bank0, name)
    {
      ReadAfterWrite32(bank, SAVED[n], name, v);
    }
  }

  lemma RestoredAll(bank: Bank32, c: CpSet)
    requires Restored(bank, c, 15)
    ensures CpView(bank) == c
  {
    hide ReadName32, Legal;
    SavedLegal();
    assert ReadName32(bank, SAVED[0]) == c.csselr && ReadName32(bank, SAVED[1]) == c.sctlr
        && ReadName32(bank, SAVED[2]) == c.ttbr0 && ReadName32(bank, SAVED[3]) == c.ttbr1
        && ReadName32(bank, SAVED[4]) == c.ttbcr && ReadName32(bank, SAVED[5]) == c.dacr
        && ReadName32(bank, SAVED[6]) == c.dfsr && ReadName32(bank, SAVED[7]) == c.ifsr
        && ReadName32(bank, SAVED[8]) == c.dfar && ReadName32(bank, SAVED[9]) == c.ifar
        && ReadName32(bank, SAVED[10]) == c.prrr && ReadName32(bank, SAVED[11]) == c.nmrr
        && ReadName32(bank, SAVED[12]) == c.fcseidr && ReadName32(bank, SAVED[13]) == c.contextidr
        && ReadName32(bank, SAVED[14]) == c.tpidrUro;
  }

  // Writing VTTBR, then its VMID field.
  lemma VttbrWrites(bank: Bank64, v: u64, id: nat)
    requires id < 0x1_0000_0000
    ensures Legal(64, VTTBR_LPAE) && Legal(64, VTTBR_LPAE_VMID)
    ensures Vttbr(WriteName64(bank, VTTBR_LPAE, v)) == v
    ensures Vttbr(WriteName64(bank, VTTBR_LPAE_VMID, id)) == WithVmid(Vttbr(bank), id)
  {
    hide Parse64, FullName, Hsb, Lsb, GetField, SetField, WithVmid;
    FullVttbr();
    Powers();
    WholeWord(64, Value64(bank, Parse64(VTTBR_LPAE)), v);
    WholeWord(64, v, 0);
    VmidField(Value64(bank, Parse64(VTTBR_LPAE)), id);
    WholeWord(64, WithVmid(Value64(bank, Parse64(VTTBR_LPAE)), id), 0);
  }
}
