// Flat physical memory and the access functions of devices/io.c.
//
// Memory is a map from word-aligned addresses to 32-bit words, little-endian, with the four
// bytes of a word in its lanes.  An address the map does not mention reads as zero.
module PhysMem {
  import opened BitOps

  type Words = map<int, u32>

  // ---------------------------------------------------------------------------------------
  // Specification: loads and stores on memory values
  // ---------------------------------------------------------------------------------------

  function LoadW(m: Words, a: int): u32 {
    if a in m then m[a] else 0
  }

  function StoreW(m: Words, a: int, v: u32): Words {
    m[a := v]
  }

  // A 64-bit descriptor: low word first.
  function LoadD(m: Words, a: int): u64 {
    LoadW(m, a) + 0x1_0000_0000 * LoadW(m, a + 4)
  }

  function StoreD(m: Words, a: int, v: u64): Words {
    m[a := v % 0x1_0000_0000][a + 4 := v / 0x1_0000_0000]
  }

  function WordOf(a: int): int {
    a - a % 4
  }

  type byte = x: int | 0 <= x < 256

  // The four byte lanes of a word.
  function Lane(w: u32, k: nat): byte
    requires k < 4
  {
    if k == 0 then w % 0x100
    else if k == 1 then w / 0x100 % 0x100
    else if k == 2 then w / 0x1_0000 % 0x100
    else w / 0x100_0000
  }

  function Join(b0: byte, b1: byte, b2: byte, b3: byte): u32 {
    b0 + 0x100 * b1 + 0x1_0000 * b2 + 0x100_0000 * b3
  }

  function SetLane(w: u32, k: nat, b: byte): u32
    requires k < 4
  {
    Join(if k == 0 then b else Lane(w, 0), if k == 1 then b else Lane(w, 1),
         if k == 2 then b else Lane(w, 2), if k == 3 then b else Lane(w, 3))
  }

  function LoadB(m: Words, a: int): byte {
    Lane(LoadW(m, WordOf(a)), a % 4)
  }

  function StoreB(m: Words, a: int, b: byte): Words {
    m[WordOf(a) := SetLane(LoadW(m, WordOf(a)), a % 4, b)]
  }

  // ---------------------------------------------------------------------------------------
  // Store, then load
  // ---------------------------------------------------------------------------------------

  lemma LoadStoreD(m: Words, a: int, v: u64, b: int)
    ensures LoadD(StoreD(m, a, v), a) == v
    ensures b <= a - 8 || b >= a + 8 ==> LoadD(StoreD(m, a, v), b) == LoadD(m, b)
  {
  }

  lemma JoinLanes(b0: byte, b1: byte, b2: byte, b3: byte)
    ensures Lane(Join(b0, b1, b2, b3), 0) == b0 && Lane(Join(b0, b1, b2, b3), 1) == b1
    ensures Lane(Join(b0, b1, b2, b3), 2) == b2 && Lane(Join(b0, b1, b2, b3), 3) == b3
  {
    var w := Join(b0, b1, b2, b3);
    DivUnique(w, 0x100, b1 + 0x100 * b2 + 0x1_0000 * b3, b0);
    DivUnique(b1 + 0x100 * b2 + 0x1_0000 * b3, 0x100, b2 + 0x100 * b3, b1);
    DivUnique(w, 0x1_0000, b2 + 0x100 * b3, b0 + 0x100 * b1);
    DivUnique(b2 + 0x100 * b3, 0x100, b3, b2);
    DivUnique(w, 0x100_0000, b3, b0 + 0x100 * b1 + 0x1_0000 * b2);
  }

  lemma LaneAfterSet(w: u32, k: nat, b: byte, j: nat)
    requires k < 4 && j < 4
    ensures Lane(SetLane(w, k, b), j) == if j == k then b else Lane(w, j)
  {
    JoinLanes(if k == 0 then b else Lane(w, 0), if k == 1 then b else Lane(w, 1),
              if k == 2 then b else Lane(w, 2), if k == 3 then b else Lane(w, 3));
  }

  // A byte store changes that byte and no other.
  lemma LoadStoreB(m: Words, a: int, b: byte, x: int)
    ensures LoadB(StoreB(m, a, b), x) == if x == a then b else LoadB(m, x)
  {
    LaneAfterSet(LoadW(m, WordOf(a)), a % 4, b, x % 4);
  }

  // Two memories agree on every word of [lo, hi).
  ghost predicate SameOn(m: Words, m': Words, lo: int, hi: int) {
    forall a :: lo <= a < hi ==> LoadW(m', a) == LoadW(m, a)
  }

  // Two memories agree on every word outside [lo, hi).
  ghost predicate SameOutside(m: Words, m': Words, lo: int, hi: int) {
    forall a :: a < lo || hi <= a ==> LoadW(m', a) == LoadW(m, a)
  }

  lemma StoreDFrame(m: Words, a: int, v: u64, lo: int, hi: int)
    requires lo <= a && a + 8 <= hi
    ensures SameOutside(m, StoreD(m, a, v), lo, hi)
  {
  }

  // ---------------------------------------------------------------------------------------
  // devices/io.c
  // ---------------------------------------------------------------------------------------

  // The shifts and casts of io_readd and io_writed.
  method JoinHalves(hi: u32, lo: u32) returns (r: u64)
    ensures r == lo + 0x1_0000_0000 * hi
  {
    Powers();
    OrIs(64, hi, 32, lo, 0x1_0000_0000);
    r := Or(64, Low(64, Shl(hi, 32)), lo);
  }

  method SplitHalves(data: u64) returns (hi: u32, lo: u32)
    ensures lo == data % 0x1_0000_0000 && hi == data / 0x1_0000_0000
  {
    Powers();
    LowIs(32, data, 0x1_0000_0000);
    ShrIs(data, 32, 0x1_0000_0000);
    hi, lo := Shr(data, 32), Low(32, data);
  }

  lemma AlignedHalves(a: u32)
    requires a % 8 == 0
    ensures a % 4 == 0 && (a + 4) % 4 == 0 && a + 8 <= 0x1_0000_0000
  {
    var k := a / 8;
    DivUnique(a, 4, 2 * k, 0);
    DivUnique(a + 4, 4, 2 * k + 1, 0);
  }

  class Memory {
    var words: Words

    constructor ()
      ensures words == map[]
    {
      words := map[];
    }

    method ReadW(addr: u32) returns (r: u32)
      requires addr % 4 == 0
      ensures r == LoadW(words, addr)
    {
      r := if addr in words then words[addr] else 0;
    }

    method WriteW(addr: u32, data: u32)
      requires addr % 4 == 0
      modifies this
      ensures words == StoreW(old(words), addr, data)
    {
      words := words[addr := data];
    }

    method ReadD(addr: u32) returns (r: u64)
      requires addr % 8 == 0
      ensures r == LoadD(words, addr)
    {
      AlignedHalves(addr);
      var hi := ReadW(addr + 4);
      var lo := ReadW(addr);
      r := JoinHalves(hi, lo);
    }

    method WriteD(addr: u32, data: u64)
      requires addr % 8 == 0
      modifies this
      ensures words == StoreD(old(words), addr, data)
    {
      AlignedHalves(addr);
      var hi, lo := SplitHalves(data);
      WriteW(addr, lo);
      WriteW(addr + 4, hi);
    }

    method WriteB(addr: u32, data: byte)
      modifies this
      ensures words == StoreB(old(words), addr, data)
    {
      var w := ReadW(WordOf(addr));
      WriteW(WordOf(addr), SetLane(w, addr % 4, data));
    }
  }
}
