// Set-up of the on-demand configuration: guest_rpb_init_pt and guest_rpb_init_mem
// (guests/guest_rpb.c), and the calls that main keeps as an alternative.
module OnDemandBoot {
  import opened Options
  import opened BitOps
  import opened PhysMem
  import opened Streams
  import opened Walker
  import opened TableModel
  import opened PageTable
  import opened GuestTables
  import opened Allocator
  import opened Paging
  import opened PagingRuns
  import opened StaticBoot
  import opened GuestBoot

  // RAM is mapped page by page, with level-3 tables enough for all of it, and so far only RAM
  // has been allocated.
  ghost predicate RamOnly(su: Setup, hist: seq<Grant>) {
    && !su.blocks && (forall v :: 0 <= v < |su.guests| ==> TablesEnough(su.guests[v]) <= su.limit)
    && (forall i :: 0 <= i < |hist| ==> InRam(su, hist[i]))
  }

  lemma RamRoom(su: Setup, hist: seq<Grant>, g: Grant)
    requires RamOnly(su, hist) && InRam(su, g)
    ensures Room(su, hist, g) && RamOnly(su, hist + [g])
  {
    hide TablesEnough, Room;
    RamHasRoom(su, hist, g);
  }

  // ---------------------------------------------------------------------------------------
  // guest_rpb_init_pt
  // ---------------------------------------------------------------------------------------

  // guest_rpb_init_pt for the next guest; returns the value for its saved VTTBR.
  method InitTables(ghost su: Setup, mem: Memory, pts: seq<PagetableLd>, alloc: MemoryAllocator, c: Config, v: nat,
                    ghost hist: seq<Grant>)
    returns (vttbr: u64)
    requires Ready(su, mem, pts, alloc, hist, v) && !su.blocks && v < |su.guests| && c == su.guests[v]
    modifies mem, pts
    ensures Ready(su, mem, pts, alloc, hist, v + 1)
    ensures vttbr == c.ptBase
    ensures SameOutside(old(mem.words), mem.words, c.ptBase, TableEnd(su, v))
  {
    hide BuildTab, WellFormed, View, Inv, TableTop;
    ghost var w := WorldOf(mem, pts, alloc);
    NextTables(su, w, hist, v);
    vttbr := InitPt(mem, pts[v], c, su.limit);
    SetUpKeepsInv(su, w, hist, v, WorldOf(mem, pts, alloc));
  }

  lemma NextTables(su: Setup, w: World, hist: seq<Grant>, v: nat)
    requires Inv(su, w, hist, v) && v < |su.guests|
    ensures |w.ts| == |su.guests| && Supported(su.guests[v], su.limit)
    ensures ZeroOn(w.m, su.guests[v].ptBase + 0xD000, TableTop(su.guests[v], su.limit))
  {
    assert GuestOk(su, v) && Untouched(su, v, w.m);
  }

  // ---------------------------------------------------------------------------------------
  // What a guest finds in its RAM
  // ---------------------------------------------------------------------------------------

  // Where the byte at RAM address x (low window) of guest v lives.
  function PhysOf(su: Setup, hist: seq<Grant>, v: nat, x: u32): nat
    requires |hist| <= PAGE_COUNT
  {
    PageAddress(su.memBase, SlotOf(GrantNo(hist, v, x / 0x1000))) + x % 0x1000
  }

  predicate InLowRam(su: Setup, v: nat, x: u32) {
    InRam(su, Grant(v, x / 0x1000))
  }

  ghost predicate ByteAt(su: Setup, m: Words, hist: seq<Grant>, v: nat, x: u32, b: byte) {
    && |hist| <= PAGE_COUNT && InLowRam(su, v, x) && GrantNo(hist, v, x / 0x1000) > 0
    && LoadB(m, PhysOf(su, hist, v, x)) == b
  }

  ghost predicate WordAt(su: Setup, m: Words, hist: seq<Grant>, v: nat, x: u32, d: u32) {
    && |hist| <= PAGE_COUNT && InLowRam(su, v, x) && GrantNo(hist, v, x / 0x1000) > 0
    && LoadW(m, PhysOf(su, hist, v, x)) == d
  }

  // The guest reads the byte through its table at both addresses.
  lemma ByteIsRead(su: Setup, w: World, hist: seq<Grant>, n: nat, v: nat, x: u32, b: byte)
    requires Inv(su, w, hist, n) && v < n && ByteAt(su, w.m, hist, v, x, b)
    ensures LoadVia(w.m, su.guests[v].ptBase, x) == Some(b)
    ensures LoadVia(w.m, su.guests[v].ptBase, 0x7000_0000 + x) == Some(b)
  {
    hide Built, SetupOk, Untouched, After, Translate, LoadB;
    AddressOfPage(x);
    TranslatesPair(su, w, hist, n, v, x / 0x1000, x % 0x1000);
  }

  lemma AddressOfPage(x: u32)
    ensures x == x / 0x1000 * 0x1000 + x % 0x1000
    ensures 0x7000_0000 + x == (HIGH_PAGE + x / 0x1000) * 0x1000 + x % 0x1000
  {
  }

  // The instruction fetch or data read of a whole word.
  lemma WordIsRead(su: Setup, w: World, hist: seq<Grant>, n: nat, v: nat, x: u32, d: u32)
    requires Inv(su, w, hist, n) && v < n && WordAt(su, w.m, hist, v, x, d)
    ensures Translate(w.m, su.guests[v].ptBase, x) == Translate(w.m, su.guests[v].ptBase, 0x7000_0000 + x)
    ensures Translate(w.m, su.guests[v].ptBase, x).Some?
      && LoadW(w.m, Translate(w.m, su.guests[v].ptBase, x).value) == d
  {
    hide Built, SetupOk, Untouched, After, Translate, LoadW;
    AddressOfPage(x);
    TranslatesPair(su, w, hist, n, v, x / 0x1000, x % 0x1000);
  }

  lemma OlderGrant(su: Setup, hist: seq<Grant>, g: Grant, v: nat, x: u32)
    requires InLowRam(su, v, x) && g != Grant(v, x / 0x1000)
    ensures GrantNo(hist + [g], v, x / 0x1000) == GrantNo(hist, v, x / 0x1000)
  {
    assert Init(hist + [g]) == hist;
  }

  // A location of the pool.
  lemma InPool(su: Setup, hist: seq<Grant>, v: nat, x: u32)
    requires SetupOk(su) && |hist| <= PAGE_COUNT
    ensures su.memBase <= PhysOf(su, hist, v, x) < PoolEnd(su)
  {
    var k := GrantNo(hist, v, x / 0x1000);
    Addresses(su.memBase, SlotOf(k), SlotOf(k));
  }

  // Allocating another page disturbs nothing that was loaded into other pages.
  lemma KeptByGrant(su: Setup, m: Words, m': Words, hist: seq<Grant>, g: Grant, u: nat,
                    v: nat, x: u32)
    requires SetupOk(su) && |hist| < PAGE_COUNT && g != Grant(v, x / 0x1000) && u < |su.guests|
    requires SameOutside(m, m', su.guests[u].ptBase, TableEnd(su, u)) && InLowRam(su, v, x)
    ensures forall b :: ByteAt(su, m, hist, v, x, b) ==> ByteAt(su, m', hist + [g], v, x, b)
    ensures forall d :: WordAt(su, m, hist, v, x, d) ==> WordAt(su, m', hist + [g], v, x, d)
  {
    hide LoadB, LoadW, SetupOk, PhysOf;
    InPool(su, hist, v, x);
    PoolIsNoTable(su, u);
    LoadBFrame(m, m', su.guests[u].ptBase, TableEnd(su, u), PhysOf(su, hist, v, x));
    if GrantNo(hist, v, x / 0x1000) > 0 {
      OlderGrant(su, hist, g, v, x);
      SamePlace(su, hist, hist + [g], v, x);
    }
  }

  lemma SamePlace(su: Setup, hist: seq<Grant>, hist': seq<Grant>, v: nat, x: u32)
    requires |hist| <= PAGE_COUNT && |hist'| <= PAGE_COUNT
    requires GrantNo(hist, v, x / 0x1000) == GrantNo(hist', v, x / 0x1000)
    ensures PhysOf(su, hist, v, x) == PhysOf(su, hist', v, x)
  {
  }

  // Writing to the page granted last disturbs nothing on older pages.
  lemma KeptByStores(su: Setup, m: Words, m': Words, hist: seq<Grant>, v: nat, x: u32)
    requires SetupOk(su) && 0 < |hist| <= PAGE_COUNT && InLowRam(su, v, x)
    requires 0 < GrantNo(hist, v, x / 0x1000) < |hist|
    requires var pa := PageAddress(su.memBase, SlotOf(|hist|)); SameOutside(m, m', pa, pa + PAGE_SIZE)
    ensures forall b :: ByteAt(su, m, hist, v, x, b) ==> ByteAt(su, m', hist, v, x, b)
    ensures forall d :: WordAt(su, m, hist, v, x, d) ==> WordAt(su, m', hist, v, x, d)
  {
    hide LoadB, LoadW;
    var k := GrantNo(hist, v, x / 0x1000);
    var pa := PageAddress(su.memBase, SlotOf(|hist|));
    Addresses(su.memBase, SlotOf(k), SlotOf(|hist|));
    Addresses(su.memBase, SlotOf(|hist|), SlotOf(k));
    FourAligned(pa, 1);
    PagesApart(su.memBase, SlotOf(k), SlotOf(|hist|));
    LoadBFrame(m, m', pa, pa + PAGE_SIZE, PhysOf(su, hist, v, x));
  }

  lemma PagesApart(base: nat, f: nat, g: nat)
    requires f != g
    ensures PageAddress(base, f) + PAGE_SIZE <= PageAddress(base, g)
         || PageAddress(base, g) + PAGE_SIZE <= PageAddress(base, f)
  {
  }

  // Byte j of the stream loaded at start.
  ghost predicate StreamByte(su: Setup, m: Words, hist: seq<Grant>, v: nat, start: nat, fin: seq<byte>, j: nat)
    requires j < |fin|
  {
    start + j < LIMIT_32 && ByteAt(su, m, hist, v, start + j, fin[j])
  }

  // Page p of guest v has been granted in between.
  ghost predicate Regranted(hist: seq<Grant>, hist': seq<Grant>, v: nat, p: nat) {
    exists i :: |hist| <= i < |hist'| && hist'[i] == Grant(v, p)
  }

  // What the guests could read before they can read now, except on pages granted again.
  ghost predicate Keeps(su: Setup, m: Words, hist: seq<Grant>, m': Words, hist': seq<Grant>) {
    && hist <= hist'
    && (forall v: nat, x: u32, b: byte ::
          ByteAt(su, m, hist, v, x, b) ==> Regranted(hist, hist', v, x / 0x1000) || ByteAt(su, m', hist', v, x, b))
    && (forall v: nat, x: u32, d: u32 ::
          WordAt(su, m, hist, v, x, d) ==> Regranted(hist, hist', v, x / 0x1000) || WordAt(su, m', hist', v, x, d))
  }

  // One more page for guest u, then stores to that page.
  lemma PageStep(su: Setup, m: Words, m1: Words, m2: Words, hist: seq<Grant>, g: Grant, u: nat)
    requires SetupOk(su) && |hist| < PAGE_COUNT && u < |su.guests|
    requires SameOutside(m, m1, su.guests[u].ptBase, TableEnd(su, u))
    requires var pa := PageAddress(su.memBase, SlotOf(|hist| + 1)); SameOutside(m1, m2, pa, pa + PAGE_SIZE)
    ensures Keeps(su, m, hist, m2, hist + [g])
  {
    hide SetupOk, LoadB, LoadW, ByteAt, WordAt;
    assert (hist + [g])[|hist|] == g;
    forall v: nat, x: u32, b: byte | ByteAt(su, m, hist, v, x, b) && !Regranted(hist, hist + [g], v, x / 0x1000)
      ensures ByteAt(su, m2, hist + [g], v, x, b)
    {
      ReadablePlace(su, m, hist, v, x, b, 0);
      KeptByGrant(su, m, m1, hist, g, u, v, x);
      OlderGrant(su, hist, g, v, x);
      KeptByStores(su, m1, m2, hist + [g], v, x);
    }
    forall v: nat, x: u32, d: u32 | WordAt(su, m, hist, v, x, d) && !Regranted(hist, hist + [g], v, x / 0x1000)
      ensures WordAt(su, m2, hist + [g], v, x, d)
    {
      ReadablePlace(su, m, hist, v, x, 0, d);
      KeptByGrant(su, m, m1, hist, g, u, v, x);
      OlderGrant(su, hist, g, v, x);
      KeptByStores(su, m1, m2, hist + [g], v, x);
    }
  }

  lemma ReadablePlace(su: Setup, m: Words, hist: seq<Grant>, v: nat, x: u32, b: byte, d: u32)
    requires ByteAt(su, m, hist, v, x, b) || WordAt(su, m, hist, v, x, d)
    ensures |hist| <= PAGE_COUNT && InLowRam(su, v, x) && 0 < GrantNo(hist, v, x / 0x1000) <= |hist|
  {
  }

  // Stores to a pool page keep the tables.
  lemma PoolStoresKeepInv(su: Setup, w: World, m': Words, hist: seq<Grant>, n: nat, k: nat)
    requires Inv(su, w, hist, n) && k <= PAGE_COUNT
    requires var pa := PageAddress(su.memBase, SlotOf(k)); SameOutside(w.m, m', pa, pa + PAGE_SIZE)
    ensures Inv(su, w.(m := m'), hist, n)
  {
    hide Built, Untouched, After, Legal, LoadW, SetupOk;
    PoolFits(su);
    Addresses(su.memBase, SlotOf(k), SlotOf(k));
    forall v | 0 <= v < |su.guests|
      ensures SameOn(w.m, m', su.guests[v].ptBase, TableEnd(su, v))
    {
      PoolIsNoTable(su, v);
    }
    MemoryKeepsInv(su, w, m', hist, n);
  }

  // ---------------------------------------------------------------------------------------
  // guest_rpb_init_mem
  // ---------------------------------------------------------------------------------------

  lemma StoreNothing(m: Words, a: int, fin: seq<byte>, size: nat)
    requires size <= |fin|
    ensures m == StoreBytes(m, a, fin[size..size])
  {
  }

  // The inner loop: up to a page of the stream; eof when fgetc found its end.
  method CopyPage(mem: Memory, pa: u32, fin: seq<byte>, size: nat) returns (size': nat, eof: bool)
    requires size <= |fin| && pa + 0x1000 <= LIMIT_32
    modifies mem
    ensures eof == (|fin| - size < 0x1000)
    ensures size' == (if eof then |fin| else size + 0x1000)
    ensures mem.words == StoreBytes(old(mem.words), pa, fin[size..size'])
  {
    hide StoreBytes, StoreB;
    size' := size;
    StoreNothing(mem.words, pa, fin, size);
    for i := 0 to 0x1000
      invariant size' == size + i <= |fin|
      invariant mem.words == StoreBytes(old(mem.words), pa, fin[size..size'])
    {
      if size' == |fin| {
        return size', true;
      }
      assert fin[size..size' + 1] == fin[size..size'] + [fin[size']];
      StoreBytesAppend(old(mem.words), pa, fin[size..size'], fin[size']);
      mem.WriteB(pa + i, fin[size']);
      size' := size' + 1;
    }
    eof := false;
  }

  lemma CopiedBytes(su: Setup, m: Words, hist: seq<Grant>, v: nat, start: nat, ipa: u32, fin: seq<byte>,
                    size: nat, size': nat)
    requires ipa == start + size
    requires 0 < |hist| <= PAGE_COUNT && ipa % 0x1000 == 0 && InLowRam(su, v, ipa)
    requires Last(hist) == Grant(v, ipa / 0x1000) && size <= size' <= |fin| && size' <= size + 0x1000
    requires SetupOk(su)
    ensures var pa := PageAddress(su.memBase, SlotOf(|hist|)); var m' := StoreBytes(m, pa, fin[size..size']);
      && SameOutside(m, m', pa, pa + PAGE_SIZE)
      && forall j :: size <= j < size' ==> StreamByte(su, m', hist, v, start, fin, j)
  {
    hide LoadB, StoreBytes, SetupOk, PageAddress;
    var pa := PageAddress(su.memBase, SlotOf(|hist|));
    var m' := StoreBytes(m, pa, fin[size..size']);
    PoolFits(su);
    Addresses(su.memBase, SlotOf(|hist|), SlotOf(|hist|));
    FourAligned(pa, 1);
    StoreBytesFrame(m, pa, fin[size..size'], pa, pa + PAGE_SIZE);
    forall j | size <= j < size'
      ensures StreamByte(su, m', hist, v, start, fin, j)
    {
      OnLastPage(su, hist, v, ipa, j - size);
      StoreBytesLoads(m, pa, fin[size..size'], pa + (j - size));
    }
  }

  lemma OnLastPage(su: Setup, hist: seq<Grant>, v: nat, ipa: u32, o: nat)
    requires 0 < |hist| <= PAGE_COUNT && ipa % 0x1000 == 0 && InLowRam(su, v, ipa) && o < 0x1000
    requires Last(hist) == Grant(v, ipa / 0x1000)
    ensures ipa + o < LIMIT_32 && InLowRam(su, v, ipa + o) && GrantNo(hist, v, (ipa + o) / 0x1000) == |hist|
    ensures PhysOf(su, hist, v, ipa + o) == PageAddress(su.memBase, SlotOf(|hist|)) + o
  {
    DivUnique(ipa + o, 0x1000, ipa / 0x1000, o);
  }

  // One round of a loader loop: a page, and what of the stream goes into it.
  method LoadPage(ghost su: Setup, mem: Memory, pts: seq<PagetableLd>, alloc: MemoryAllocator, v: nat, ghost start: nat,
                  ipa: u32, fin: seq<byte>, size: nat, ghost hist: seq<Grant>, ghost n: nat)
    returns (size': nat, eof: bool, ok: bool)
    requires Ready(su, mem, pts, alloc, hist, n) && v < n && size <= |fin|
    requires ipa == start + size && ipa % 0x1000 == 0 && ipa + 0x7000_0000 < LIMIT_32
    requires InLowRam(su, v, ipa) && RamOnly(su, hist)
    modifies mem, pts, alloc.Objs()
    ensures ok <==> |hist| < PAGE_COUNT
    ensures ok ==>
      var hist' := hist + [Grant(v, ipa / 0x1000)];
      && Ready(su, mem, pts, alloc, hist', n) && RamOnly(su, hist')
      && Keeps(su, old(mem.words), hist, mem.words, hist')
      && eof == (|fin| - size < 0x1000)
      && size' == (if eof then |fin| else size + 0x1000)
      && (forall j :: size <= j < size' ==> StreamByte(su, mem.words, hist', v, start, fin, j))
  {
    hide Built, Untouched, After, LoadB, StoreBytes, SetupOk, NewPageSpec, PageAddress, StreamByte, Keeps, InRam,
      Legal, RamOnly, Room;
    ghost var m, hist' := mem.words, hist + [Grant(v, ipa / 0x1000)];
    GuestCount(su, WorldOf(mem, pts, alloc), hist, n);
    RamRoom(su, hist, Grant(v, ipa / 0x1000));
    var pa;
    pa, ok := NewPage(su, mem, pts, alloc, v, ipa, ipa + 0x7000_0000, hist, n);
    size', eof := size, false;
    if !ok {
      return;
    }
    ghost var w := WorldOf(mem, pts, alloc);
    PoolFits(su);
    Addresses(su.memBase, SlotOf(|hist| + 1), SlotOf(|hist| + 1));
    size', eof := CopyPage(mem, pa, fin, size);
    CopiedBytes(su, w.m, hist', v, start, ipa, fin, size, size');
    PoolStoresKeepInv(su, w, mem.words, hist', n, |hist| + 1);
    PageStep(su, m, w.m, mem.words, hist, Grant(v, ipa / 0x1000), v);
  }

  lemma GuestCount(su: Setup, w: World, hist: seq<Grant>, n: nat)
    requires Inv(su, w, hist, n)
    ensures n <= |su.guests| && Legal(su, hist) && |hist| <= PAGE_COUNT
  {
  }

  // The pages the loader asks for when it loads an image of k - 1 full pages and a rest.
  function ImageGrants(v: nat, start: u32, k: nat): (gs: seq<Grant>)
    ensures |gs| == k && forall i :: 0 <= i < k ==> gs[i] == Grant(v, start / 0x1000 + i)
  {
    seq(k, i requires 0 <= i < k => Grant(v, start / 0x1000 + i))
  }

  function PagesFor(size: nat): nat {
    size / 0x1000 + 1
  }

  ghost predicate ImageAt(su: Setup, m: Words, hist: seq<Grant>, v: nat, start: u32, bytes: seq<byte>) {
    forall j :: 0 <= j < |bytes| ==> StreamByte(su, m, hist, v, start, bytes, j)
  }

  lemma KeepsTransitive(su: Setup, m0: Words, h0: seq<Grant>, m1: Words, h1: seq<Grant>,
                        m2: Words, h2: seq<Grant>)
    requires Keeps(su, m0, h0, m1, h1) && Keeps(su, m1, h1, m2, h2)
    ensures Keeps(su, m0, h0, m2, h2)
  {
    hide ByteAt, WordAt, Regranted;
    forall v: nat, p: nat | Regranted(h0, h1, v, p) || Regranted(h1, h2, v, p)
      ensures Regranted(h0, h2, v, p)
    {
      RegrantedLater(h0, h1, h2, v, p);
    }
  }

  lemma RegrantedLater(h0: seq<Grant>, h1: seq<Grant>, h2: seq<Grant>, v: nat, p: nat)
    requires h0 <= h1 <= h2
    ensures Regranted(h0, h1, v, p) || Regranted(h1, h2, v, p) ==> Regranted(h0, h2, v, p)
  {
    if Regranted(h0, h1, v, p) {
      var i :| |h0| <= i < |h1| && h1[i] == Grant(v, p);
      assert h2[i] == Grant(v, p);
    }
  }

  // None of the pages lo to hi - 1 of guest v has been granted in between.
  ghost predicate Spares(hist: seq<Grant>, hist': seq<Grant>, v: nat, lo: nat, hi: nat) {
    forall i :: |hist| <= i < |hist'| && hist'[i].vm == v ==> hist'[i].p < lo || hi <= hist'[i].p
  }

  lemma KeepsImage(su: Setup, m: Words, hist: seq<Grant>, m': Words, hist': seq<Grant>, v: nat, start: u32,
                   bytes: seq<byte>, hi: nat)
    requires Keeps(su, m, hist, m', hist') && ImageAt(su, m, hist, v, start, bytes)
    requires start + |bytes| <= 0x1000 * hi && Spares(hist, hist', v, start / 0x1000, hi)
    ensures ImageAt(su, m', hist', v, start, bytes)
  {
    hide ByteAt, WordAt;
    forall j | 0 <= j < |bytes|
      ensures StreamByte(su, m', hist', v, start, bytes, j)
    {
      assert StreamByte(su, m, hist, v, start, bytes, j);
      assert start / 0x1000 <= (start + j) / 0x1000 < hi;
    }
  }

  // The first k pages of the image have been loaded.
  ghost predicate Loaded(su: Setup, mem: Memory, pts: seq<PagetableLd>, alloc: MemoryAllocator, v: nat, start: u32,
                         fin: seq<byte>, size: nat, k: nat, m0: Words, hist0: seq<Grant>,
                         hist: seq<Grant>, n: nat)
    reads mem, pts, alloc.Objs()
  {
    && size <= |fin|
    && hist == hist0 + ImageGrants(v, start, k)
    && Ready(su, mem, pts, alloc, hist, n) && RamOnly(su, hist)
    && Keeps(su, m0, hist0, mem.words, hist)
    && ImageAt(su, mem.words, hist, v, start, fin[..size])
  }

  // The pages of the image are RAM.
  ghost predicate Loadable(su: Setup, v: nat, start: u32, size: nat) {
    && start % 0x1000 == 0 && start + 0x1000 * PagesFor(size) <= 0x1000_0000
    && forall i :: 0 <= i < PagesFor(size) ==> RamPageAt(su, v, start / 0x1000, i)
  }

  predicate RamPageAt(su: Setup, v: nat, p: nat, i: nat) {
    InRam(su, Grant(v, p + i))
  }

  lemma NextImagePage(su: Setup, hist0: seq<Grant>, v: nat, start: u32, size: nat, k: nat)
    requires Loadable(su, v, start, size) && k < PagesFor(size)
    ensures var ipa := start + 0x1000 * k; var g := Grant(v, ipa / 0x1000);
      && ipa % 0x1000 == 0 && ipa / 0x1000 == start / 0x1000 + k && ipa + 0x7000_0000 < LIMIT_32
      && InRam(su, g)
      && hist0 + ImageGrants(v, start, k) + [g] == hist0 + ImageGrants(v, start, k + 1)
  {
    DivUnique(start + 0x1000 * k, 0x1000, start / 0x1000 + k, 0);
    assert RamPageAt(su, v, start / 0x1000, k);
    assert ImageGrants(v, start, k + 1) == ImageGrants(v, start, k) + [Grant(v, start / 0x1000 + k)];
  }

  // One round extends what has been loaded.
  lemma LoadedMore(su: Setup, m0: Words, hist0: seq<Grant>, m1: Words, hist: seq<Grant>,
                   m2: Words, hist2: seq<Grant>, v: nat, start: u32, fin: seq<byte>, k: nat, size: nat, size': nat)
    requires start % 0x1000 == 0 && size == 0x1000 * k && hist2 == hist + [Grant(v, start / 0x1000 + k)]
    requires size <= size' <= |fin| && Keeps(su, m0, hist0, m1, hist) && Keeps(su, m1, hist, m2, hist2)
    requires ImageAt(su, m1, hist, v, start, fin[..size])
    requires forall j :: size <= j < size' ==> StreamByte(su, m2, hist2, v, start, fin, j)
    ensures Keeps(su, m0, hist0, m2, hist2) && ImageAt(su, m2, hist2, v, start, fin[..size'])
  {
    hide ByteAt, WordAt, Keeps;
    KeepsTransitive(su, m0, hist0, m1, hist, m2, hist2);
    KeepsImage(su, m1, hist, m2, hist2, v, start, fin[..size], start / 0x1000 + k);
    forall j | 0 <= j < size'
      ensures StreamByte(su, m2, hist2, v, start, fin[..size'], j)
    {
      if j < size {
        assert StreamByte(su, m2, hist2, v, start, fin[..size], j);
      } else {
        assert StreamByte(su, m2, hist2, v, start, fin, j);
      }
    }
  }

  // The do-while loop over one file: every page of it, one page more than its full pages.
  method LoadImage(ghost su: Setup, mem: Memory, pts: seq<PagetableLd>, alloc: MemoryAllocator, v: nat, start: u32,
                   fin: seq<byte>, ghost hist0: seq<Grant>, ghost n: nat)
    returns (ok: bool, ghost hist: seq<Grant>)
    requires Ready(su, mem, pts, alloc, hist0, n) && RamOnly(su, hist0) && v < n && Loadable(su, v, start, |fin|)
    modifies mem, pts, alloc.Objs()
    ensures ok <==> |hist0| + PagesFor(|fin|) <= PAGE_COUNT
    ensures ok ==> Loaded(su, mem, pts, alloc, v, start, fin, |fin|, PagesFor(|fin|), old(mem.words), hist0, hist, n)
  {
    hide Ready, RamOnly, ByteAt, WordAt, Keeps, ImageAt, Loadable, InRam, PagesFor, ImageGrants;
    Aligned4K(su, v, start, |fin|);
    var size, eof, k := 0, false, 0;
    hist, ok := hist0, true;
    NothingLoaded(su, mem.words, hist0, v, start, fin);
    ReadyLength(su, mem, pts, alloc, hist, n);
    Pages(|fin|);
    while !eof
      invariant Loaded(su, mem, pts, alloc, v, start, fin, size, k, old(mem.words), hist0, hist, n)
      invariant if eof then size == |fin| && k == PagesFor(|fin|) else size == 0x1000 * k <= |fin|
      invariant |hist0| + k <= PAGE_COUNT
      decreases !eof, |fin| - size
    {
      ReadyLength(su, mem, pts, alloc, hist, n);
      MorePages(|fin|, k);
      NextImagePage(su, hist0, v, start, |fin|, k);
      ghost var m1, size0 := mem.words, size;
      var ipa := start + 0x1000 * k;
      size, eof, ok := LoadPage(su, mem, pts, alloc, v, start, ipa, fin, size, hist, n);
      if !ok {
        return;
      }
      ghost var hist2 := hist + [Grant(v, ipa / 0x1000)];
      LoadedMore(su, old(mem.words), hist0, m1, hist, mem.words, hist2, v, start, fin, k, size0, size);
      hist := hist2;
      k := k + 1;
    }
    ReadyLength(su, mem, pts, alloc, hist, n);
  }

  lemma NothingLoaded(su: Setup, m: Words, hist: seq<Grant>, v: nat, start: u32, fin: seq<byte>)
    ensures hist == hist + ImageGrants(v, start, 0) && Keeps(su, m, hist, m, hist)
    ensures ImageAt(su, m, hist, v, start, fin[..0])
  {
  }

  lemma Aligned4K(su: Setup, v: nat, start: u32, size: nat)
    requires Loadable(su, v, start, size)
    ensures start % 0x1000 == 0
  {
  }

  lemma Pages(size: nat)
    ensures PagesFor(size) > 0
  {
  }

  lemma MorePages(size: nat, k: nat)
    requires 0x1000 * k <= size
    ensures k < PagesFor(size)
    ensures (size - 0x1000 * k < 0x1000) == (k + 1 == PagesFor(size))
  {
    if size - 0x1000 * k < 0x1000 {
      DivUnique(size, 0x1000, k, size - 0x1000 * k);
    }
  }

  lemma ReadyLength(su: Setup, mem: Memory, pts: seq<PagetableLd>, alloc: MemoryAllocator,
                    hist: seq<Grant>, n: nat)
    requires Ready(su, mem, pts, alloc, hist, n)
    ensures |hist| <= PAGE_COUNT && n <= |su.guests|
  {
  }

  // The pages guest_rpb_init_mem asks for, in order.
  function LoaderGrants(v: nat, kernelSize: nat, initrdSize: nat): seq<Grant> {
    ImageGrants(v, KERNEL_BASE, PagesFor(kernelSize)) + ImageGrants(v, INITRD_BASE, PagesFor(initrdSize))
    + [Grant(v, 0)]
  }

  // The loader asks for every page once exactly if the kernel ends below the initrd.  A kernel
  // that ends where the initrd begins already makes it ask twice: the loop allocates a page
  // before it finds the end of the file.
  lemma LoaderAsksOnce(v: nat, kernelSize: nat, initrdSize: nat)
    ensures NoRepeats(LoaderGrants(v, kernelSize, initrdSize)) <==> KERNEL_BASE + kernelSize < INITRD_BASE
  {
    var gs, k := LoaderGrants(v, kernelSize, initrdSize), PagesFor(kernelSize);
    if KERNEL_BASE + kernelSize >= INITRD_BASE {
      assert kernelSize / 0x1000 >= 0xCF0;
      assert gs[0xCF0] == Grant(v, 0xD00) == gs[k];
    }
  }

  // The images fit and do not overlap.
  predicate LoaderFits(c: Config, kernelSize: nat, initrdSize: nat) {
    KERNEL_BASE + kernelSize <= INITRD_BASE && INITRD_BASE / 0x1000 + initrdSize / 0x1000 < RamPages(c)
  }

  lemma LoadableImages(su: Setup, v: nat, kernelSize: nat, initrdSize: nat)
    requires SetupOk(su) && v < |su.guests| && LoaderFits(su.guests[v], kernelSize, initrdSize)
    ensures Loadable(su, v, KERNEL_BASE, kernelSize) && Loadable(su, v, INITRD_BASE, initrdSize)
    ensures InRam(su, Grant(v, 0)) && INITRD_BASE + initrdSize < 0x1000_0000
  {
    assert GuestOk(su, v);
  }

  // A file of size bytes ends below page start / 0x1000 + PagesFor(size).
  lemma ImageEnd(start: nat, size: nat)
    requires start % 0x1000 == 0
    ensures start + size <= 0x1000 * (start / 0x1000 + PagesFor(size))
  {
  }

  // The bootloader and the atags on page 0.
  ghost predicate BootAt(su: Setup, m: Words, hist: seq<Grant>, v: nat, memSize: u32, initrdSize: u32) {
    && (forall i :: 0 <= i < 7 ==> BootWord(su, m, hist, v, i))
    && (forall i :: 0 <= i < 15 ==> AtagWord(su, m, hist, v, memSize, initrdSize, i))
  }

  ghost predicate BootWord(su: Setup, m: Words, hist: seq<Grant>, v: nat, i: nat)
    requires i < 7
  {
    WordAt(su, m, hist, v, 4 * i, Bootloader()[i])
  }

  ghost predicate AtagWord(su: Setup, m: Words, hist: seq<Grant>, v: nat, memSize: u32,
                           initrdSize: u32, i: nat)
    requires i < 15
  {
    WordAt(su, m, hist, v, ATAG_BASE + 4 * i, Atags(memSize, initrdSize)[i])
  }

  // Everything guest_rpb_init_mem puts into guest v's RAM is there.
  ghost predicate GuestImage(su: Setup, m: Words, hist: seq<Grant>, v: nat, memSize: u32,
                             kernel: seq<byte>, initrd: seq<byte>) {
    && ImageAt(su, m, hist, v, KERNEL_BASE, kernel)
    && ImageAt(su, m, hist, v, INITRD_BASE, initrd)
    && |initrd| < LIMIT_32 && BootAt(su, m, hist, v, memSize, |initrd|)
  }

  lemma KeepsBoot(su: Setup, m: Words, hist: seq<Grant>, m': Words, hist': seq<Grant>,
                  v: nat, memSize: u32, initrdSize: u32)
    requires Keeps(su, m, hist, m', hist') && BootAt(su, m, hist, v, memSize, initrdSize)
    requires !Regranted(hist, hist', v, 0)
    ensures BootAt(su, m', hist', v, memSize, initrdSize)
  {
    hide ByteAt, WordAt, Bootloader, Atags, Regranted;
    TableLengths(memSize, initrdSize);
    forall i | 0 <= i < 7
      ensures BootWord(su, m', hist', v, i)
    {
      assert BootWord(su, m, hist, v, i);
    }
    forall i | 0 <= i < 15
      ensures AtagWord(su, m', hist', v, memSize, initrdSize, i)
    {
      assert AtagWord(su, m, hist, v, memSize, initrdSize, i);
    }
  }

  // Granting pages to another guest leaves the image alone.
  lemma KeepsGuestImage(su: Setup, m: Words, hist: seq<Grant>, m': Words, hist': seq<Grant>,
                        v: nat, memSize: u32, kernel: seq<byte>, initrd: seq<byte>)
    requires Keeps(su, m, hist, m', hist') && GuestImage(su, m, hist, v, memSize, kernel, initrd)
    requires forall i :: |hist| <= i < |hist'| ==> hist'[i].vm != v
    ensures GuestImage(su, m', hist', v, memSize, kernel, initrd)
  {
    hide Keeps, ImageAt, BootAt;
    ImageEnd(KERNEL_BASE, |kernel|);
    ImageEnd(INITRD_BASE, |initrd|);
    KeepsImage(su, m, hist, m', hist', v, KERNEL_BASE, kernel, KERNEL_BASE / 0x1000 + PagesFor(|kernel|));
    KeepsImage(su, m, hist, m', hist', v, INITRD_BASE, initrd, INITRD_BASE / 0x1000 + PagesFor(|initrd|));
    KeepsBoot(su, m, hist, m', hist', v, memSize, |initrd|);
  }

  // Page 0 after the two word loops.
  lemma BootWords(su: Setup, m: Words, hist: seq<Grant>, v: nat, memSize: u32, initrdSize: u32)
    requires SetupOk(su) && 0 < |hist| <= PAGE_COUNT && InLowRam(su, v, 0) && Last(hist) == Grant(v, 0)
    ensures var pa := PageAddress(su.memBase, SlotOf(|hist|));
      var m' := StoreWords(StoreWords(m, pa, Bootloader()), pa + ATAG_BASE, Atags(memSize, initrdSize));
      && SameOutside(m, m', pa, pa + PAGE_SIZE) && BootAt(su, m', hist, v, memSize, initrdSize)
      && BootPage(m', pa, memSize, initrdSize)
  {
    hide BootPage, LoadW, StoreWords, Bootloader, Atags, SetupOk, PageAddress;
    var pa := PageAddress(su.memBase, SlotOf(|hist|));
    var m1 := StoreWords(m, pa, Bootloader());
    var m2 := StoreWords(m1, pa + ATAG_BASE, Atags(memSize, initrdSize));
    TableLengths(memSize, initrdSize);
    StoreWordsFrame(m, pa, Bootloader(), pa, pa + 0x100);
    StoreWordsFrame(m1, pa + ATAG_BASE, Atags(memSize, initrdSize), pa + 0x100, pa + PAGE_SIZE);
    forall i | 0 <= i < 7
      ensures BootWord(su, m2, hist, v, i)
    {
      OnLastPage(su, hist, v, 0, 4 * i);
      StoreWordsLoads(m, pa, Bootloader(), i);
    }
    forall i | 0 <= i < 15
      ensures AtagWord(su, m2, hist, v, memSize, initrdSize, i)
    {
      OnLastPage(su, hist, v, 0, ATAG_BASE + 4 * i);
      StoreWordsLoads(m1, pa + ATAG_BASE, Atags(memSize, initrdSize), i);
      assert pa + ATAG_BASE + 4 * i == pa + (ATAG_BASE + 4 * i);
    }
    forall i | 0 <= i < 7
      ensures LoadW(m2, pa + 4 * i) == Bootloader()[i]
    {
      StoreWordsLoads(m, pa, Bootloader(), i);
    }
    forall i | 0 <= i < 15
      ensures LoadW(m2, pa + ATAG_BASE + 4 * i) == Atags(memSize, initrdSize)[i]
    {
      StoreWordsLoads(m1, pa + ATAG_BASE, Atags(memSize, initrdSize), i);
    }
    TablesAreBootPage(m2, pa, memSize, initrdSize);
  }

  // The end of guest_rpb_init_mem: page 0.
  method LoadBootPage(ghost su: Setup, mem: Memory, pts: seq<PagetableLd>, alloc: MemoryAllocator, v: nat,
                      memSize: u32, initrdSize: u32, ghost hist: seq<Grant>, ghost n: nat)
    returns (ok: bool)
    requires Ready(su, mem, pts, alloc, hist, n) && v < n
    requires InLowRam(su, v, 0) && RamOnly(su, hist)
    modifies mem, pts, alloc.Objs()
    ensures ok <==> |hist| < PAGE_COUNT
    ensures ok ==>
      var hist' := hist + [Grant(v, 0)];
      && Ready(su, mem, pts, alloc, hist', n) && RamOnly(su, hist')
      && Keeps(su, old(mem.words), hist, mem.words, hist')
      && BootAt(su, mem.words, hist', v, memSize, initrdSize)
      && BootPage(mem.words, PageAddress(su.memBase, SlotOf(|hist'|)), memSize, initrdSize)
  {
    hide Built, Untouched, After, LoadW, StoreWords, SetupOk, NewPageSpec, PageAddress, BootAt, Keeps, InRam, Legal,
      RamOnly, Room, BootPage;
    ghost var m, hist' := mem.words, hist + [Grant(v, 0)];
    GuestCount(su, WorldOf(mem, pts, alloc), hist, n);
    RamRoom(su, hist, Grant(v, 0));
    var pa;
    pa, ok := NewPage(su, mem, pts, alloc, v, 0, 0x7000_0000, hist, n);
    if !ok {
      return;
    }
    ghost var w := WorldOf(mem, pts, alloc);
    PoolFits(su);
    Addresses(su.memBase, SlotOf(|hist| + 1), SlotOf(|hist| + 1));
    FourAligned(pa, 1);
    CopyWords(mem, pa, Bootloader());
    var atag := Atags(memSize, 0)[12 := initrdSize];
    assert atag == Atags(memSize, initrdSize);
    PageAlignedWords(pa);
    CopyWords(mem, pa + ATAG_BASE, atag);
    BootWords(su, w.m, hist', v, memSize, initrdSize);
    PoolStoresKeepInv(su, w, mem.words, hist', n, |hist| + 1);
    PageStep(su, m, w.m, mem.words, hist, Grant(v, 0), v);
  }

  lemma PageAlignedWords(pa: u32)
    requires pa % 0x1000 == 0
    ensures (pa + 0x100) % 4 == 0
  {
    DivUnique(pa + 0x100, 4, 0x400 * (pa / 0x1000) + 0x40, 0);
  }

  // After the kernel the loader grants pages of the initrd, then page 0: none of the kernel's.
  lemma InitrdSparesKernel(hist: seq<Grant>, v: nat, kernelSize: nat, initrdSize: nat)
    requires KERNEL_BASE + kernelSize <= INITRD_BASE
    ensures var h1 := hist + ImageGrants(v, KERNEL_BASE, PagesFor(kernelSize));
      var h2 := h1 + ImageGrants(v, INITRD_BASE, PagesFor(initrdSize));
      && Spares(h1, h2 + [Grant(v, 0)], v, KERNEL_BASE / 0x1000, INITRD_BASE / 0x1000)
      && Spares(h2, h2 + [Grant(v, 0)], v, INITRD_BASE / 0x1000, INITRD_BASE / 0x1000 + PagesFor(initrdSize))
      && h2 + [Grant(v, 0)] == hist + LoaderGrants(v, kernelSize, initrdSize)
  {
  }

  // guest_rpb_init_mem; false: the pool is used up.
  method InitMem(ghost su: Setup, mem: Memory, pts: seq<PagetableLd>, alloc: MemoryAllocator, v: nat, memSize: u32,
                 kernel: seq<byte>, initrd: seq<byte>, ghost hist: seq<Grant>, ghost n: nat)
    returns (ok: bool)
    requires Ready(su, mem, pts, alloc, hist, n) && RamOnly(su, hist) && v < n <= |su.guests|
    requires LoaderFits(su.guests[v], |kernel|, |initrd|)
    modifies mem, pts, alloc.Objs()
    ensures ok <==> |hist| + PagesFor(|kernel|) + PagesFor(|initrd|) + 1 <= PAGE_COUNT
    ensures ok ==>
      var hist' := hist + LoaderGrants(v, |kernel|, |initrd|);
      && Ready(su, mem, pts, alloc, hist', n) && RamOnly(su, hist')
      && Keeps(su, old(mem.words), hist, mem.words, hist')
      && GuestImage(su, mem.words, hist', v, memSize, kernel, initrd)
  {
    hide Ready, RamOnly, Keeps, ImageAt, BootAt, Loadable, InRam, ImageGrants, LoaderFits, Spares, LoaderGrants;
    ReadySetup(su, mem, pts, alloc, hist, n);
    LoadableImages(su, v, |kernel|, |initrd|);
    KernelEnd(su.guests[v], |kernel|, |initrd|);
    InitrdSparesKernel(hist, v, |kernel|, |initrd|);
    ImageEnd(INITRD_BASE, |initrd|);
    ghost var m0, h1 := mem.words, hist;
    ok, h1 := LoadImage(su, mem, pts, alloc, v, KERNEL_BASE, kernel, hist, n);
    if !ok {
      return;
    }
    assert kernel[..|kernel|] == kernel;
    ghost var m1, h2 := mem.words, h1;
    ok, h2 := LoadImage(su, mem, pts, alloc, v, INITRD_BASE, initrd, h1, n);
    if !ok {
      return;
    }
    assert initrd[..|initrd|] == initrd;
    ghost var m2 := mem.words;
    ok := LoadBootPage(su, mem, pts, alloc, v, memSize, |initrd|, h2, n);
    if !ok {
      return;
    }
    ghost var h3 := h2 + [Grant(v, 0)];
    KeepsTransitive(su, m0, hist, m1, h1, m2, h2);
    KeepsTransitive(su, m0, hist, m2, h2, mem.words, h3);
    KeepsTransitive(su, m1, h1, m2, h2, mem.words, h3);
    KeepsImage(su, m1, h1, mem.words, h3, v, KERNEL_BASE, kernel, INITRD_BASE / 0x1000);
    KeepsImage(su, m2, h2, mem.words, h3, v, INITRD_BASE, initrd, INITRD_BASE / 0x1000 + PagesFor(|initrd|));
  }

  lemma KernelEnd(c: Config, kernelSize: nat, initrdSize: nat)
    requires LoaderFits(c, kernelSize, initrdSize)
    ensures KERNEL_BASE + kernelSize <= INITRD_BASE
  {
  }

  lemma ReadySetup(su: Setup, mem: Memory, pts: seq<PagetableLd>, alloc: MemoryAllocator,
                   hist: seq<Grant>, n: nat)
    requires Ready(su, mem, pts, alloc, hist, n)
    ensures SetupOk(su) && n <= |su.guests|
  {
  }

  // Through its own table the guest reads every byte of both images, at the low and at the high
  // address.
  lemma GuestReadsImages(su: Setup, w: World, hist: seq<Grant>, n: nat, v: nat, memSize: u32,
                         kernel: seq<byte>, initrd: seq<byte>, j: nat)
    requires Inv(su, w, hist, n) && v < n && GuestImage(su, w.m, hist, v, memSize, kernel, initrd)
    ensures j < |kernel| ==> ReadsBoth(w.m, su.guests[v].ptBase, KERNEL_BASE + j, kernel[j])
    ensures j < |initrd| ==> ReadsBoth(w.m, su.guests[v].ptBase, INITRD_BASE + j, initrd[j])
  {
    hide Inv, LoadVia, ByteAt, BootAt;
    if j < |kernel| {
      assert StreamByte(su, w.m, hist, v, KERNEL_BASE, kernel, j);
      InTheWindow(su, w.m, hist, v, KERNEL_BASE + j, kernel[j]);
      ByteIsRead(su, w, hist, n, v, KERNEL_BASE + j, kernel[j]);
    }
    if j < |initrd| {
      assert StreamByte(su, w.m, hist, v, INITRD_BASE, initrd, j);
      InTheWindow(su, w.m, hist, v, INITRD_BASE + j, initrd[j]);
      ByteIsRead(su, w, hist, n, v, INITRD_BASE + j, initrd[j]);
    }
  }

  // The guest finds at 0x70000000 what it boots from.
  lemma OnDemandBoots(su: Setup, w: World, hist: seq<Grant>, n: nat, v: nat, memSize: u32, kernel: seq<byte>,
                      initrd: seq<byte>)
    requires Inv(su, w, hist, n) && v < n && GuestImage(su, w.m, hist, v, memSize, kernel, initrd)
    ensures v < |su.guests| && Boots(w.m, su.guests[v].ptBase, 0x7000_0000, memSize, kernel, initrd)
  {
    hide Inv, ReadsWord, ImageAt, Boots, Bootloader, Atags, WordAt, ReadsBytes;
    TableLengths(memSize, |initrd|);
    InvParts(su, w, hist, n);
    var b := su.guests[v].ptBase;
    HighImage(su, w, hist, n, v, KERNEL_BASE, kernel);
    HighImage(su, w, hist, n, v, INITRD_BASE, initrd);
    forall k | 0 <= k < 7
      ensures ReadsWord(w.m, b, 0x7000_0000 + 4 * k, Bootloader()[k])
    {
      assert BootWord(su, w.m, hist, v, k);
      HighWord(su, w, hist, n, v, 4 * k, Bootloader()[k]);
    }
    forall k | 0 <= k < 15
      ensures ReadsWord(w.m, b, 0x7000_0100 + 4 * k, Atags(memSize, |initrd|)[k])
    {
      assert AtagWord(su, w.m, hist, v, memSize, |initrd|, k);
      HighWord(su, w, hist, n, v, ATAG_BASE + 4 * k, Atags(memSize, |initrd|)[k]);
    }
    BootsFromTables(w.m, b, memSize, kernel, initrd);
  }

  lemma HighByte(su: Setup, w: World, hist: seq<Grant>, n: nat, v: nat, start: u32, bytes: seq<byte>, j: nat)
    requires Inv(su, w, hist, n) && v < n && ImageAt(su, w.m, hist, v, start, bytes) && j < |bytes|
    ensures v < |su.guests| && ReadsByte(w.m, su.guests[v].ptBase, 0x7000_0000 + start + j, bytes[j])
  {
    hide Inv, LoadVia, ByteAt;
    InvParts(su, w, hist, n);
    assert StreamByte(su, w.m, hist, v, start, bytes, j);
    InTheWindow(su, w.m, hist, v, start + j, bytes[j]);
    ByteIsRead(su, w, hist, n, v, start + j, bytes[j]);
  }

  lemma HighImage(su: Setup, w: World, hist: seq<Grant>, n: nat, v: nat, start: u32, bytes: seq<byte>)
    requires Inv(su, w, hist, n) && v < n && ImageAt(su, w.m, hist, v, start, bytes)
    ensures v < |su.guests| && ReadsBytes(w.m, su.guests[v].ptBase, 0x7000_0000 + start, bytes)
  {
    hide Inv, ReadsByte, ImageAt;
    InvParts(su, w, hist, n);
    forall j: nat | j < |bytes|
      ensures ReadsByte(w.m, su.guests[v].ptBase, 0x7000_0000 + start + j, bytes[j])
    {
      HighByte(su, w, hist, n, v, start, bytes, j);
    }
  }

  lemma HighWord(su: Setup, w: World, hist: seq<Grant>, n: nat, v: nat, x: u32, d: u32)
    requires Inv(su, w, hist, n) && v < n && WordAt(su, w.m, hist, v, x, d) && x < 0x1000
    ensures v < |su.guests| && ReadsWord(w.m, su.guests[v].ptBase, 0x7000_0000 + x, d)
  {
    hide Inv, WordAt, Translate, LoadW;
    InvParts(su, w, hist, n);
    WordIsRead(su, w, hist, n, v, x, d);
  }

  lemma InTheWindow(su: Setup, m: Words, hist: seq<Grant>, v: nat, x: u32, b: byte)
    requires ByteAt(su, m, hist, v, x, b)
    ensures x < 0x1000_0000
  {
  }
}
