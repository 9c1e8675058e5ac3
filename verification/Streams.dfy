// Byte streams and word tables copied into memory, as the guest loaders do it.
module Streams {
  import opened BitOps
  import opened PhysMem

  // Memory after bytes have been stored at a, a + 1, ...
  function StoreBytes(m: Words, a: int, bytes: seq<byte>): Words {
    if bytes == [] then m
    else StoreB(StoreBytes(m, a, bytes[..|bytes| - 1]), a + |bytes| - 1, bytes[|bytes| - 1])
  }

  // Memory after words have been stored at a, a + 4, ...
  function StoreWords(m: Words, a: int, words: seq<u32>): Words {
    if words == [] then m
    else StoreW(StoreWords(m, a, words[..|words| - 1]), a + 4 * (|words| - 1), words[|words| - 1])
  }

  lemma StoreBytesAppend(m: Words, a: int, bytes: seq<byte>, b: byte)
    ensures StoreBytes(m, a, bytes + [b]) == StoreB(StoreBytes(m, a, bytes), a + |bytes|, b)
  {
    assert (bytes + [b])[..|bytes|] == bytes;
  }

  lemma {:induction false} StoreBytesLoads(m: Words, a: int, bytes: seq<byte>, x: int)
    ensures LoadB(StoreBytes(m, a, bytes), x) == if a <= x < a + |bytes| then bytes[x - a] else LoadB(m, x)
  {
    hide LoadB, StoreB;
    if bytes != [] {
      var n := |bytes| - 1;
      StoreBytesLoads(m, a, bytes[..n], x);
      LoadStoreB(StoreBytes(m, a, bytes[..n]), a + n, bytes[n], x);
    }
  }

  lemma {:induction false} StoreWordsLoads(m: Words, a: int, words: seq<u32>, i: nat)
    requires i < |words|
    ensures LoadW(StoreWords(m, a, words), a + 4 * i) == words[i]
  {
    var n := |words| - 1;
    if i < n {
      StoreWordsLoads(m, a, words[..n], i);
    }
  }

  lemma WordOfRange(a: int, lo: int, hi: int)
    requires lo % 4 == 0 && hi % 4 == 0 && lo <= a < hi
    ensures lo <= WordOf(a) < hi
  {
    assert lo == 4 * (lo / 4) && hi == 4 * (hi / 4) && WordOf(a) == 4 * (a / 4);
  }

  lemma {:induction false} StoreBytesFrame(m: Words, a: int, bytes: seq<byte>, lo: int, hi: int)
    requires lo % 4 == 0 && hi % 4 == 0 && lo <= a && a + |bytes| <= hi
    ensures SameOutside(m, StoreBytes(m, a, bytes), lo, hi)
  {
    if bytes != [] {
      var n := |bytes| - 1;
      StoreBytesFrame(m, a, bytes[..n], lo, hi);
      WordOfRange(a + n, lo, hi);
    }
  }

  lemma {:induction false} StoreWordsFrame(m: Words, a: int, words: seq<u32>, lo: int, hi: int)
    requires lo <= a && a + 4 * |words| <= hi
    ensures SameOutside(m, StoreWords(m, a, words), lo, hi)
  {
    if words != [] {
      StoreWordsFrame(m, a, words[..|words| - 1], lo, hi);
    }
  }

  // Bytes of words that did not change.
  lemma LoadBFrame(m: Words, m': Words, lo: int, hi: int, x: int)
    requires SameOutside(m, m', lo, hi) && lo % 4 == 0 && hi % 4 == 0
    requires x < lo || hi <= x
    ensures LoadB(m', x) == LoadB(m, x)
  {
    assert lo == 4 * (lo / 4) && hi == 4 * (hi / 4) && WordOf(x) == 4 * (x / 4);
  }

  // A byte stored outside a range leaves its words alone.
  lemma ByteOutside(m: Words, pa: int, b: byte, lo: int, hi: int)
    requires lo % 4 == 0 && hi % 4 == 0 && (pa < lo || hi <= pa)
    ensures SameOn(m, StoreB(m, pa, b), lo, hi)
  {
    assert lo == 4 * (lo / 4) && hi == 4 * (hi / 4) && WordOf(pa) == 4 * (pa / 4);
  }

  // The fgetc loop: one byte after the other until the end of the stream.
  method CopyBytes(mem: Memory, start: nat, fin: seq<byte>)
    requires start + |fin| <= 0x1_0000_0000
    modifies mem
    ensures mem.words == StoreBytes(old(mem.words), start, fin)
  {
    for size := 0 to |fin|
      invariant mem.words == StoreBytes(old(mem.words), start, fin[..size])
    {
      assert fin[..size + 1][..size] == fin[..size];
      mem.WriteB(start + size, fin[size]);
    }
    assert fin[..|fin|] == fin;
  }

  // The bootloader and atag loops.
  method CopyWords(mem: Memory, start: u32, words: seq<u32>)
    requires start % 4 == 0 && start + 4 * |words| <= 0x1_0000_0000
    modifies mem
    ensures mem.words == StoreWords(old(mem.words), start, words)
  {
    for i := 0 to |words|
      invariant mem.words == StoreWords(old(mem.words), start, words[..i])
    {
      assert words[..i + 1][..i] == words[..i];
      mem.WriteW(start + 4 * i, words[i]);
    }
    assert words[..|words|] == words;
  }
}
