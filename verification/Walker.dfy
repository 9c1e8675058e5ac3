// Stage-2 translation as the hardware performs it: the Long-descriptor format, section B3.6 of
// the ARMv7-A Architecture Reference Manual (DDI 0406C), for the 32-bit input address size and
// the level-1 start that meteor_cp15_init programs into VTCR.
//
// Everything is stated on 4 KiB page numbers; `Translate` adds the page offset.
module Walker {
  import opened Options
  import opened BitOps
  import opened PhysMem

  const PAGES: nat := 0x10_0000

  // Bit 10: an access through a block or page descriptor without it faults.
  predicate AccessFlag(d: u64) {
    d / 0x400 % 2 == 1
  }

  // Descriptor types, bits 1:0.
  predicate IsTable(d: u64) {
    d % 4 == 3
  }

  predicate IsBlock(d: u64) {
    d % 4 == 1 && AccessFlag(d)
  }

  // Bits 39:12 of a table descriptor, as an address.
  function NextTable(d: u64): nat {
    d / 0x1000 % 0x1000_0000 * 0x1000
  }

  // The output page of a level-3 page descriptor.
  function LeafPage(d: u64): Option<nat> {
    if IsTable(d) && AccessFlag(d) then Some(d / 0x1000 % 0x1000_0000) else None
  }

  // The output page of a 2 MiB block descriptor for input page p.
  function BlockPage(d: u64, p: nat): nat {
    d / 0x20_0000 % 0x8_0000 * 0x200 + p % 0x200
  }

  // The output page of a 1 GiB block descriptor for input page p.
  function GigaPage(d: u64, p: nat): nat {
    d / 0x4000_0000 % 0x400 * 0x4_0000 + p % 0x4_0000
  }

  function WalkL2(m: Words, l2: u64, p: nat): Option<nat> {
    if IsTable(l2) then LeafPage(LoadD(m, NextTable(l2) + 8 * (p % 0x200)))
    else if IsBlock(l2) then Some(BlockPage(l2, p))
    else None
  }

  // Walk from BADDR, bits 39:5 of the VTTBR value, for input page p.
  function WalkPage(m: Words, vttbr: nat, p: nat): Option<nat> {
    var l1 := LoadD(m, vttbr / 0x20 % 0x8_0000_0000 * 0x20 + 8 * (p / 0x4_0000));
    if IsTable(l1) then WalkL2(m, LoadD(m, NextTable(l1) + 8 * (p / 0x200 % 0x200)), p)
    else if IsBlock(l1) then Some(GigaPage(l1, p))
    else None
  }

  function Translate(m: Words, vttbr: nat, ipa: u32): Option<nat> {
    match WalkPage(m, vttbr, ipa / 0x1000)
    case None => None
    case Some(q) => Some(q * 0x1000 + ipa % 0x1000)
  }

  // Accesses executed by a guest: through its table, or they fault.
  function LoadVia(m: Words, vttbr: nat, ipa: u32): Option<byte> {
    match Translate(m, vttbr, ipa)
    case None => None
    case Some(pa) => Some(LoadB(m, pa))
  }

  function WordVia(m: Words, vttbr: nat, ipa: u32): Option<u32> {
    match Translate(m, vttbr, ipa)
    case None => None
    case Some(pa) => Some(LoadW(m, pa))
  }

  function StoreVia(m: Words, vttbr: nat, ipa: u32, data: byte): Words {
    match Translate(m, vttbr, ipa)
    case None => m
    case Some(pa) => StoreB(m, pa, data)
  }

  // A guest reads byte b at RAM address x and at its alias.
  predicate ReadsBoth(m: Words, vttbr: nat, x: nat, b: byte) {
    x < 0x1000_0000 && LoadVia(m, vttbr, x) == Some(b) && LoadVia(m, vttbr, 0x7000_0000 + x) == Some(b)
  }
}
