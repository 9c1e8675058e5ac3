// Guests' tables while pages are taken from the pool of vmm/memory_allocator.c.  A table is
// described by its base map (RAM blocks or none, five device pages) and the history of
// allocations; the static configuration starts with blocks, the on-demand one without.
module Paging {
  import opened Options
  import opened BitOps
  import opened PhysMem
  import opened Walker
  import opened TableModel
  import opened PageTable
  import opened GuestTables
  import opened Allocator

  // ---------------------------------------------------------------------------------------
  // Histories and the map they stand for
  // ---------------------------------------------------------------------------------------

  // `blocks`: RAM is mapped by blocks from the start.  `limit` is the number of level-3 tables
  // behind each table base, memBase the pool's address.
  datatype Setup = Setup(guests: seq<Config>, blocks: bool, limit: nat, memBase: nat)

  // One allocation by memory_allocator_new_page: for low page p of guest vm and its alias.
  datatype Grant = Grant(vm: nat, p: nat)

  // The data-abort handler allocates for low pages below this number.
  const GRANT_PAGES: nat := 0x2_0000

  function BaseBlocks(su: Setup, v: nat): nat
    requires v < |su.guests|
  {
    if su.blocks then Blocks(su.guests[v]) else 0
  }

  // What guest v's table maps before any allocation.
  function BaseOf(su: Setup, v: nat, x: nat): Option<nat>
    requires v < |su.guests|
  {
    BasePage(su.guests[v], BaseBlocks(su, v), 5, x)
  }

  // A page of guest v that the handler may be asked for and that no block maps.
  predicate Acceptable(su: Setup, g: Grant) {
    g.vm < |su.guests| && 0x200 * BaseBlocks(su, g.vm) <= g.p < GRANT_PAGES
  }

  // The 2 MiB regions of guest v that have a level-3 table.
  ghost function Touched(v: nat, hist: seq<Grant>): set<nat> {
    if hist == [] then DeviceRegions(5)
    else if Last(hist).vm == v then Touched(v, Init(hist)) + {Last(hist).p / 0x200, 0x380 + Last(hist).p / 0x200}
    else Touched(v, Init(hist))
  }

  // The pool and the level-3 tables suffice.
  ghost predicate Legal(su: Setup, hist: seq<Grant>) {
    && |hist| <= PAGE_COUNT
    && (forall i :: 0 <= i < |hist| ==> Acceptable(su, hist[i]))
    && (forall v :: 0 <= v < |su.guests| ==> |Touched(v, hist)| <= su.limit)
  }

  // The level-3 tables suffice for one more grant.
  ghost predicate Room(su: Setup, hist: seq<Grant>, g: Grant) {
    Acceptable(su, g) && |Touched(g.vm, hist + [g])| <= su.limit
  }

  lemma LegalExtends(su: Setup, hist: seq<Grant>, g: Grant)
    requires Legal(su, hist) && Room(su, hist, g) && |hist| < PAGE_COUNT
    ensures Legal(su, hist + [g])
  {
    assert Init(hist + [g]) == hist;
  }

  // The last grant, counted from 1, that maps input page x of guest v; 0 for none.
  function GrantNo(hist: seq<Grant>, v: nat, x: nat): (k: nat)
    ensures k <= |hist|
  {
    if hist == [] then 0
    else
      var g := Last(hist);
      if g.vm == v && (x == g.p || x == HIGH_PAGE + g.p) then |hist| else GrantNo(Init(hist), v, x)
  }

  lemma {:induction false} GrantNoIs(hist: seq<Grant>, v: nat, x: nat)
    ensures var k := GrantNo(hist, v, x);
      && (k > 0 ==> hist[k - 1].vm == v && (x == hist[k - 1].p || x == HIGH_PAGE + hist[k - 1].p))
      && (forall i :: k <= i < |hist| && hist[i].vm == v ==> x != hist[i].p && x != HIGH_PAGE + hist[i].p)
  {
    if hist != [] {
      GrantNoIs(Init(hist), v, x);
    }
  }

  // The pool page of the k-th grant.
  function PoolPage(su: Setup, k: nat): nat
    requires k <= PAGE_COUNT
  {
    su.memBase / 0x1000 + SlotOf(k)
  }

  // What guest v's table maps page x to.
  function GuestPage(su: Setup, v: nat, hist: seq<Grant>, x: nat): Option<nat>
    requires v < |su.guests| && |hist| <= PAGE_COUNT
  {
    var k := GrantNo(hist, v, x);
    if k > 0 then Some(PoolPage(su, k)) else BaseOf(su, v, x)
  }

  lemma PoolPageBound(su: Setup, k: nat)
    requires k <= PAGE_COUNT && PoolEnd(su) <= LIMIT_32
    ensures PoolPage(su, k) < PAGES
  {
  }

  // Grant g maps its two pages and nothing else.
  lemma GuestPageAfter(su: Setup, v: nat, hist: seq<Grant>, g: Grant, x: nat)
    requires v < |su.guests| && |hist| < PAGE_COUNT
    ensures GuestPage(su, v, hist + [g], x)
         == if g.vm == v && (x == g.p || x == HIGH_PAGE + g.p) then Some(PoolPage(su, |hist| + 1))
            else GuestPage(su, v, hist, x)
  {
    assert Init(hist + [g]) == hist;
  }

  // The two pages of a grant.
  lemma PairOfGrant(su: Setup, hist: seq<Grant>, v: nat, p: nat)
    requires p < GRANT_PAGES && forall i :: 0 <= i < |hist| ==> Acceptable(su, hist[i])
    ensures var k := GrantNo(hist, v, p);
      && GrantNo(hist, v, HIGH_PAGE + p) == k
      && (k == 0 <==> Grant(v, p) !in hist)
      && (k > 0 ==> hist[k - 1] == Grant(v, p))
      && (forall j :: k <= j < |hist| ==> hist[j] != Grant(v, p))
  {
    SameGrant(su, hist, v, p);
    GrantNoIs(hist, v, p);
  }

  lemma {:induction false} SameGrant(su: Setup, hist: seq<Grant>, v: nat, p: nat)
    requires p < GRANT_PAGES && forall i :: 0 <= i < |hist| ==> Acceptable(su, hist[i])
    ensures GrantNo(hist, v, HIGH_PAGE + p) == GrantNo(hist, v, p)
  {
    if hist != [] {
      SameGrant(su, Init(hist), v, p);
    }
  }

  // ---------------------------------------------------------------------------------------
  // Level-3 tables for the RAM windows
  // ---------------------------------------------------------------------------------------

  function RamPages(c: Config): nat {
    c.memSize / 0x1000
  }

  // A RAM page of a guest.
  predicate InRam(su: Setup, g: Grant) {
    g.vm < |su.guests| && g.p < RamPages(su.guests[g.vm]) && g.p < 0x1_0000
  }

  ghost function Span(lo: nat, n: nat): (s: set<nat>)
    ensures forall i: nat :: i in s <==> lo <= i < lo + n
    ensures |s| == n
  {
    if n == 0 then {} else Span(lo, n - 1) + {lo + n - 1}
  }

  // 2 MiB regions of RAM, low and high, and of the devices.
  function RamRegions(c: Config): nat {
    (RamPages(c) + 0x1FF) / 0x200
  }

  ghost function Window(c: Config): set<nat> {
    Span(0, RamRegions(c)) + Span(0x380, RamRegions(c)) + DeviceRegions(5)
  }

  // Level-3 tables that always suffice for RAM and devices.
  function TablesEnough(c: Config): nat {
    2 * RamRegions(c) + 5
  }

  lemma WindowSize(c: Config)
    ensures |Window(c)| <= TablesEnough(c)
  {
    var n := RamRegions(c);
    UnionSize(Span(0, n), Span(0x380, n));
    UnionSize(Span(0, n) + Span(0x380, n), DeviceRegions(5));
  }

  lemma UnionSize<T>(a: set<T>, b: set<T>)
    ensures |a + b| <= |a| + |b|
  {
    assert a + b == a + (b - a);
    SubsetSize(b - a, b);
  }

  lemma {:induction false} TouchedInWindow(su: Setup, v: nat, hist: seq<Grant>)
    requires v < |su.guests| && forall i :: 0 <= i < |hist| ==> InRam(su, hist[i])
    ensures Touched(v, hist) <= Window(su.guests[v])
  {
    hide Window;
    WindowHas(su.guests[v]);
    if hist != [] {
      TouchedInWindow(su, v, Init(hist));
    }
  }

  lemma WindowHas(c: Config)
    ensures DeviceRegions(5) <= Window(c)
    ensures forall p :: 0 <= p < RamPages(c) ==> p / 0x200 in Window(c) && 0x380 + p / 0x200 in Window(c)
  {
  }

  // Allocations for RAM never run out of level-3 tables.
  lemma RamHasRoom(su: Setup, hist: seq<Grant>, g: Grant)
    requires !su.blocks && InRam(su, g) && TablesEnough(su.guests[g.vm]) <= su.limit
    requires forall i :: 0 <= i < |hist| ==> InRam(su, hist[i])
    ensures Room(su, hist, g)
  {
    hide Window, TablesEnough, Touched;
    TouchedInWindow(su, g.vm, hist + [g]);
    WindowSize(su.guests[g.vm]);
    SubsetSize(Touched(g.vm, hist + [g]), Window(su.guests[g.vm]));
  }

  // ---------------------------------------------------------------------------------------
  // Supported set-ups
  // ---------------------------------------------------------------------------------------

  function TableEnd(su: Setup, v: nat): nat
    requires v < |su.guests|
  {
    TableTop(su.guests[v], su.limit)
  }

  function PoolEnd(su: Setup): nat {
    su.memBase + PAGE_COUNT * PAGE_SIZE
  }

  ghost predicate Apart(lo: nat, hi: nat, lo': nat, hi': nat) {
    hi <= lo' || hi' <= lo
  }

  // Page q is in no guest's tables.
  ghost predicate NoTable(su: Setup, q: nat) {
    forall w :: 0 <= w < |su.guests| ==> Apart(q * 0x1000, q * 0x1000 + 0x1000, su.guests[w].ptBase, TableEnd(su, w))
  }

  ghost predicate GuestOk(su: Setup, v: nat)
    requires v < |su.guests|
  {
    && Supported(su.guests[v], su.limit)
    && Apart(su.guests[v].ptBase, TableEnd(su, v), su.memBase, PoolEnd(su))
    && (forall x :: 0 <= x < PAGES && BaseOf(su, v, x).Some? ==> NoTable(su, BaseOf(su, v, x).value))
  }

  ghost predicate SetupOk(su: Setup) {
    && su.memBase % 0x1000 == 0 && PoolEnd(su) <= LIMIT_32
    && (forall v :: 0 <= v < |su.guests| ==> GuestOk(su, v))
    && (forall v, w :: 0 <= v < w < |su.guests| ==>
          Apart(su.guests[v].ptBase, TableEnd(su, v), su.guests[w].ptBase, TableEnd(su, w)))
  }

  // No base map reaches into the pool.
  ghost predicate PoolClear(su: Setup) {
    forall v, x :: 0 <= v < |su.guests| && 0 <= x < PAGES && BaseOf(su, v, x).Some? ==>
      OutsidePool(su, BaseOf(su, v, x).value)
  }

  predicate OutsidePool(su: Setup, q: nat) {
    q * 0x1000 < su.memBase || PoolEnd(su) <= q * 0x1000
  }

  lemma PoolFits(su: Setup)
    requires SetupOk(su)
    ensures su.memBase % 0x1000 == 0 && PoolEnd(su) <= LIMIT_32
  {
  }

  // ---------------------------------------------------------------------------------------
  // The machine: memory, the guests' tables, the pool
  // ---------------------------------------------------------------------------------------

  datatype World = World(m: Words, ts: seq<Ld>, pool: Pool)

  // A decoded table that has been built by the base mappings and the grants of guest v.
  ghost predicate GuestTab(su: Setup, v: nat, tab: Tab, hist: seq<Grant>)
    requires v < |su.guests| && |hist| <= PAGE_COUNT
  {
    && Tidy(tab, su.limit)
    && TableRegions(tab) == Touched(v, hist)
    && (forall r :: 0 <= r < REGIONS && tab.regions[r].Block? ==> BlockRegion(BaseBlocks(su, v), r))
    && (forall x :: 0 <= x < PAGES ==> Lookup(tab, x) == GuestPage(su, v, hist, x))
  }

  ghost predicate Built(su: Setup, v: nat, m: Words, t: Ld, hist: seq<Grant>)
    requires v < |su.guests| && |hist| <= PAGE_COUNT
  {
    && t.l1Base == su.guests[v].ptBase
    && WellFormed(m, t, su.limit)
    && GuestTab(su, v, View(m, t, su.limit), hist)
  }

  function RequestOf(g: Grant): Request
    requires g.p < GRANT_PAGES
  {
    Request(g.vm, g.p * 0x1000, (HIGH_PAGE + g.p) * 0x1000)
  }

  function Requests(hist: seq<Grant>): (rs: seq<Request>)
    requires forall i :: 0 <= i < |hist| ==> hist[i].p < GRANT_PAGES
    ensures |rs| == |hist| && forall i :: 0 <= i < |hist| ==> rs[i] == RequestOf(hist[i])
  {
    seq(|hist|, i requires 0 <= i < |hist| => RequestOf(hist[i]))
  }

  ghost predicate Untouched(su: Setup, v: nat, m: Words)
    requires v < |su.guests|
  {
    ZeroOn(m, su.guests[v].ptBase + 0xD000, TableEnd(su, v))
  }

  // The first n guests are set up; behind the tables to come memory is still zero.
  ghost predicate Inv(su: Setup, w: World, hist: seq<Grant>, n: nat) {
    && SetupOk(su) && Legal(su, hist)
    && n <= |w.ts| == |su.guests|
    && (forall i :: 0 <= i < |hist| ==> hist[i].vm < n)
    && (forall v :: 0 <= v < n ==> Built(su, v, w.m, w.ts[v], hist))
    && (forall v :: n <= v < |su.guests| ==> Untouched(su, v, w.m))
    && After(w.pool, Requests(hist), |hist|)
  }

  lemma InvParts(su: Setup, w: World, hist: seq<Grant>, n: nat)
    requires Inv(su, w, hist, n)
    ensures SetupOk(su) && Legal(su, hist) && |hist| <= PAGE_COUNT && n <= |su.guests| == |w.ts|
    ensures su.memBase % 0x1000 == 0 && PoolEnd(su) <= LIMIT_32
  {
  }

  // In every such state the hardware translates each guest's addresses as the history says.
  lemma TranslatesHistory(su: Setup, w: World, hist: seq<Grant>, n: nat, v: nat, x: u32)
    requires Inv(su, w, hist, n) && v < n
    ensures Translate(w.m, su.guests[v].ptBase, x) == InPage(GuestPage(su, v, hist, x / 0x1000), x)
  {
    hide WalkPage, WellFormed, View, Lookup, SetupOk, GuestPage, After, Untouched, Tidy, Touched;
    assert Built(su, v, w.m, w.ts[v], hist);
    RegionOfAddress(x);
    WalkOfTable(w.m, w.ts[v], su.limit, x / 0x1000);
  }

  // ---------------------------------------------------------------------------------------
  // Ownership and isolation in every such state
  // ---------------------------------------------------------------------------------------

  // The addresses of the pair that Grant(v, p) maps.
  lemma TranslatesPair(su: Setup, w: World, hist: seq<Grant>, n: nat, v: nat, p: nat, o: nat)
    requires Inv(su, w, hist, n) && v < n && p < GRANT_PAGES && o < 0x1000
    ensures var k := GrantNo(hist, v, p);
      && (k == 0 <==> Grant(v, p) !in hist) && k <= PAGE_COUNT && v < |su.guests|
      && Translate(w.m, su.guests[v].ptBase, p * 0x1000 + o)
           == (if k == 0 then InPage(BaseOf(su, v, p), p * 0x1000 + o)
               else Some(PageAddress(su.memBase, SlotOf(k)) + o))
      && Translate(w.m, su.guests[v].ptBase, (HIGH_PAGE + p) * 0x1000 + o)
           == (if k == 0 then InPage(BaseOf(su, v, HIGH_PAGE + p), (HIGH_PAGE + p) * 0x1000 + o)
               else Some(PageAddress(su.memBase, SlotOf(k)) + o))
  {
    hide Translate, Built, SetupOk, Untouched, BaseOf, After;
    DivUnique(p * 0x1000 + o, 0x1000, p, o);
    DivUnique((HIGH_PAGE + p) * 0x1000 + o, 0x1000, HIGH_PAGE + p, o);
    TranslatesHistory(su, w, hist, n, v, p * 0x1000 + o);
    TranslatesHistory(su, w, hist, n, v, (HIGH_PAGE + p) * 0x1000 + o);
    PairOfGrant(su, hist, v, p);
    InvParts(su, w, hist, n);
  }

  lemma SlotServes(k: nat, n: nat)
    requires 0 < k <= n <= PAGE_COUNT
    ensures SlotOf(k) < PAGE_COUNT && Server(SlotOf(k), n) == k
  {
  }

  lemma ServerIs(s: nat, n: nat)
    requires s < PAGE_COUNT && n <= PAGE_COUNT && Server(s, n) > 0
    ensures Server(s, n) <= n && SlotOf(Server(s, n)) == s
  {
  }

  // memory_allocator_page_exist holds exactly for the granted pairs.
  lemma ExistsMeansGranted(su: Setup, w: World, hist: seq<Grant>, n: nat, g: Grant)
    requires Inv(su, w, hist, n) && g.p < GRANT_PAGES
    ensures PageExists(w.pool.slots, RequestOf(g)) <==> g in hist
  {
    hide Built, SetupOk, Untouched, OwnedSlots;
    forall s | 0 <= s < |w.pool.slots| && w.pool.slots[s] == OwnedBy(RequestOf(g))
      ensures g in hist
    {
      OwnerOf(su, w, hist, n, g, s);
    }
    if g in hist {
      var i :| 0 <= i < |hist| && hist[i] == g;
      SlotServes(i + 1, |hist|);
      assert w.pool.slots[SlotOf(i + 1)] == OwnedBy(RequestOf(g));
    }
  }

  lemma OwnerOf(su: Setup, w: World, hist: seq<Grant>, n: nat, g: Grant, s: nat)
    requires Inv(su, w, hist, n) && g.p < GRANT_PAGES
    requires s < |w.pool.slots| && w.pool.slots[s] == OwnedBy(RequestOf(g))
    ensures g in hist
  {
    hide Built, SetupOk, Untouched, OwnedSlots;
    ServerIs(s, |hist|);
    assert RequestOf(hist[Server(s, |hist|) - 1]) == RequestOf(g);
  }

  // Both addresses of the pair translate to slot s's page.
  predicate PairAt(su: Setup, m: Words, v: nat, p: nat, s: nat)
    requires v < |su.guests| && p < GRANT_PAGES
  {
    && Translate(m, su.guests[v].ptBase, p * 0x1000) == Some(PageAddress(su.memBase, s))
    && Translate(m, su.guests[v].ptBase, (HIGH_PAGE + p) * 0x1000) == Some(PageAddress(su.memBase, s))
  }

  // Ownership agrees with translation: memory_allocator_page_exist holds exactly for the pairs
  // whose two addresses translate to the same page of the pool.
  lemma ExistsMeansTranslated(su: Setup, w: World, hist: seq<Grant>, n: nat, v: nat, p: nat)
    requires Inv(su, w, hist, n) && PoolClear(su) && v < n && p < GRANT_PAGES
    ensures v < |su.guests|
    ensures PageExists(w.pool.slots, RequestOf(Grant(v, p)))
      <==> exists s :: 0 <= s < PAGE_COUNT && PairAt(su, w.m, v, p, s)
  {
    hide Translate, Built, SetupOk, Untouched, OwnedSlots, BaseOf, PageExists, After, Legal;
    InvParts(su, w, hist, n);
    TranslatesPair(su, w, hist, n, v, p, 0);
    ExistsMeansGranted(su, w, hist, n, Grant(v, p));
    var k := GrantNo(hist, v, p);
    if k > 0 {
      SlotServes(k, k);
      assert PairAt(su, w.m, v, p, SlotOf(k));
    } else {
      forall s | 0 <= s < PAGE_COUNT
        ensures !PairAt(su, w.m, v, p, s)
      {
        Addresses(su.memBase, s, s);
        BaseMisses(su, v, p, s);
      }
    }
  }

  lemma BaseMisses(su: Setup, v: nat, p: nat, s: nat)
    requires PoolClear(su) && v < |su.guests| && p < GRANT_PAGES && s < PAGE_COUNT
    requires su.memBase % 0x1000 == 0 && PoolEnd(su) <= LIMIT_32
    ensures InPage(BaseOf(su, v, p), p * 0x1000) != Some(PageAddress(su.memBase, s))
  {
    hide BaseOf;
    Addresses(su.memBase, s, s);
    DivUnique(p * 0x1000, 0x1000, p, 0);
    if BaseOf(su, v, p).Some? {
      assert OutsidePool(su, BaseOf(su, v, p).value);
    }
  }

  // Slot s's grant has not been repeated.
  predicate Current(hist: seq<Grant>, k: nat)
    requires 0 < k <= |hist|
  {
    forall j :: k <= j < |hist| ==> hist[j] != hist[k - 1]
  }

  // An owned slot is the page its owner's walk returns, at both addresses, exactly while the
  // pair has not been requested again.
  lemma OwnedSlotIsTranslated(su: Setup, w: World, hist: seq<Grant>, n: nat, s: nat, o: nat)
    requires Inv(su, w, hist, n) && s < |w.pool.slots| && w.pool.slots[s].Owned? && o < 0x1000
    ensures var x := w.pool.slots[s];
      && x.vm < n <= |su.guests| && x.ipa + o < LIMIT_32 && x.high + o < LIMIT_32
      && 0 < Server(s, |hist|) <= |hist|
      && (Current(hist, Server(s, |hist|)) <==>
            Translate(w.m, su.guests[x.vm].ptBase, x.ipa + o) == Some(PageAddress(su.memBase, s) + o))
      && (Current(hist, Server(s, |hist|)) <==>
            Translate(w.m, su.guests[x.vm].ptBase, x.high + o) == Some(PageAddress(su.memBase, s) + o))
  {
    hide Translate, Built, SetupOk, Untouched, OwnedSlots, BaseOf;
    ServerIs(s, |hist|);
    var k := Server(s, |hist|);
    var g := hist[k - 1];
    InvParts(su, w, hist, n);
    TranslatesPair(su, w, hist, n, g.vm, g.p, o);
    PairOfGrant(su, hist, g.vm, g.p);
    var j := GrantNo(hist, g.vm, g.p);
    Addresses(su.memBase, SlotOf(j), s);
    SlotServes(j, |hist|);
  }

  // Pages a guest can reach: its own grants, or its base map.
  lemma ReachesOwnGrants(su: Setup, hist: seq<Grant>, v: nat, x: nat)
    requires v < |su.guests| && |hist| <= PAGE_COUNT && GuestPage(su, v, hist, x).Some?
    ensures var q := GuestPage(su, v, hist, x).value; var k := GrantNo(hist, v, x);
      if k > 0 then q == PoolPage(su, k) && hist[k - 1].vm == v else BaseOf(su, v, x) == Some(q)
  {
    GrantNoIs(hist, v, x);
  }

  // No pool page is reachable from two guests.
  lemma PoolPagesArePrivate(su: Setup, w: World, hist: seq<Grant>, n: nat, v: nat, u: nat, x: u32, y: u32)
    requires Inv(su, w, hist, n) && PoolClear(su) && v < n && u < n
    ensures v < |su.guests| && u < |su.guests|
    ensures ReachPoolPage(su, Translate(w.m, su.guests[v].ptBase, x), Translate(w.m, su.guests[u].ptBase, y)) ==> v == u
  {
    hide Translate, Built, Untouched, GuestPage, After, Legal, SetupOk;
    InvParts(su, w, hist, n);
    TranslatesHistory(su, w, hist, n, v, x);
    TranslatesHistory(su, w, hist, n, u, y);
    var a, b := GuestPage(su, v, hist, x / 0x1000), GuestPage(su, u, hist, y / 0x1000);
    if a.Some? && b.Some? {
      DivUnique(a.value * 0x1000 + x % 0x1000, 0x1000, a.value, x % 0x1000);
      DivUnique(b.value * 0x1000 + y % 0x1000, 0x1000, b.value, y % 0x1000);
      RegionOfAddress(x);
      RegionOfAddress(y);
      InPoolMeansGranted(su, hist, v, x / 0x1000);
      InPoolMeansGranted(su, hist, u, y / 0x1000);
    }
  }

  // Both addresses are on the same page of the pool.
  predicate ReachPoolPage(su: Setup, a: Option<nat>, b: Option<nat>) {
    a.Some? && b.Some? && a.value / 0x1000 == b.value / 0x1000 && !OutsidePool(su, a.value / 0x1000)
  }

  lemma InPoolMeansGranted(su: Setup, hist: seq<Grant>, v: nat, x: nat)
    requires PoolClear(su) && v < |su.guests| && |hist| <= PAGE_COUNT && x < PAGES && GuestPage(su, v, hist, x).Some?
    ensures var q := GuestPage(su, v, hist, x).value; var k := GrantNo(hist, v, x);
      !OutsidePool(su, q) ==> k > 0 && hist[k - 1].vm == v && q - su.memBase / 0x1000 == SlotOf(k)
  {
    hide GuestPage, BaseOf;
    ReachesOwnGrants(su, hist, v, x);
  }

  // No guest address translates into any guest's tables.
  lemma TablesUnreachable(su: Setup, w: World, hist: seq<Grant>, n: nat, v: nat, x: u32, u: nat)
    requires Inv(su, w, hist, n) && v < n && u < |su.guests|
    ensures v < |su.guests|
    ensures match Translate(w.m, su.guests[v].ptBase, x)
      case None => true
      case Some(pa) => pa < su.guests[u].ptBase || TableEnd(su, u) <= pa
  {
    hide Translate, Built, Untouched, GuestPage, After, Legal, SetupOk;
    InvParts(su, w, hist, n);
    TranslatesHistory(su, w, hist, n, v, x);
    if GuestPage(su, v, hist, x / 0x1000).Some? {
      RegionOfAddress(x);
      ReachesOutside(su, hist, v, x / 0x1000, u);
    }
  }

  lemma ReachesOutside(su: Setup, hist: seq<Grant>, v: nat, x: nat, u: nat)
    requires SetupOk(su) && v < |su.guests| && u < |su.guests| && |hist| <= PAGE_COUNT && x < PAGES
    requires GuestPage(su, v, hist, x).Some?
    ensures var a := GuestPage(su, v, hist, x).value * 0x1000;
      Apart(a, a + 0x1000, su.guests[u].ptBase, TableEnd(su, u))
  {
    hide GuestPage, BaseOf;
    ReachesOwnGrants(su, hist, v, x);
    assert GuestOk(su, u) && GuestOk(su, v);
    if GrantNo(hist, v, x) == 0 {
      assert NoTable(su, BaseOf(su, v, x).value);
    }
  }

  // ---------------------------------------------------------------------------------------
  // One allocation
  // ---------------------------------------------------------------------------------------

  ghost predicate HasRoom(tab: Tab, p: nat) {
    Valid(tab) && |tab.leaves| % 0x200 == 0 && p < PAGES && HasL3(tab, p)
  }

  // The two mappings of grant g can be made, and lead to the table of the longer history.
  ghost predicate Grants(su: Setup, v: nat, tab: Tab, hist: seq<Grant>, g: Grant)
    requires v < |su.guests| && |hist| < PAGE_COUNT
  {
    var q := PoolPage(su, |hist| + 1);
    && HasRoom(tab, g.p)
    && var tab1 := SetPage(tab, g.p, q);
       && HasRoom(tab1, HIGH_PAGE + g.p)
       && GuestTab(su, v, SetPage(tab1, HIGH_PAGE + g.p, q), hist + [g])
  }

  // Two page mappings to the same page.
  lemma MapTwoOn(v: Tab, limit: nat, p: nat, p': nat, q: nat)
    requires Tidy(v, limit) && p < PAGES && p' < PAGES
    requires !v.regions[p / 0x200].Block? && !v.regions[p' / 0x200].Block?
    requires |TableRegions(v) + {p / 0x200, p' / 0x200}| <= limit
    ensures HasRoom(v, p) && HasRoom(SetPage(v, p, q), p')
    ensures var w := SetPage(SetPage(v, p, q), p', q);
      && Tidy(w, limit)
      && (forall x :: 0 <= x < PAGES ==> Lookup(w, x) == if x == p || x == p' then Some(q) else Lookup(v, x))
      && (forall r :: 0 <= r < REGIONS ==> w.regions[r].Block? == v.regions[r].Block?)
      && TableRegions(w) == TableRegions(v) + {p / 0x200, p' / 0x200}
  {
    hide Lookup, SetPage, Tidy, TableRegions, HasL3, Valid;
    TidyShape(v, limit);
    SubsetSize(TableRegions(v) + {p / 0x200}, TableRegions(v) + {p / 0x200, p' / 0x200});
    MapPageOn(v, limit, p, q);
    var v1 := SetPage(v, p, q);
    TidyShape(v1, limit);
    assert TableRegions(v1) + {p' / 0x200} == TableRegions(v) + {p / 0x200, p' / 0x200};
    MapPageOn(v1, limit, p', q);
  }

  lemma GrantTab(su: Setup, v: nat, tab: Tab, hist: seq<Grant>, g: Grant)
    requires v < |su.guests| && |hist| < PAGE_COUNT && g.vm == v && GuestTab(su, v, tab, hist)
    requires Room(su, hist, g) && Supported(su.guests[v], su.limit)
    ensures Grants(su, v, tab, hist, g)
  {
    hide Lookup, SetPage, Tidy, TableRegions, GuestPage, HasL3, Valid;
    var q, r := PoolPage(su, |hist| + 1), g.p / 0x200;
    assert Init(hist + [g]) == hist;
    TidyShape(tab, su.limit);
    BlocksBound(su.guests[v], su.limit);
    DivUnique(HIGH_PAGE + g.p, 0x200, 0x380 + r, g.p % 0x200);
    MapTwoOn(tab, su.limit, g.p, HIGH_PAGE + g.p, q);
    TidyShape(SetPage(SetPage(tab, g.p, q), HIGH_PAGE + g.p, q), su.limit);
    forall x | 0 <= x < PAGES
      ensures Lookup(SetPage(SetPage(tab, g.p, q), HIGH_PAGE + g.p, q), x) == GuestPage(su, v, hist + [g], x)
    {
      GuestPageAfter(su, v, hist, g, x);
    }
  }

  // The two descriptor updates of a grant: (m', t') results from mapping p and HIGH_PAGE + p to q.
  ghost predicate PagePair(m: Words, t: Ld, m': Words, t': Ld, p: nat, q: nat) {
    && p < GRANT_PAGES && q < PAGES && L3Table(t, t.pageCount) <= LIMIT_32
    && var s := SetPageSpec(m, t, p, q);
       L3Table(s.1, s.1.pageCount) <= LIMIT_32 && (m', t') == SetPageSpec(s.0, s.1, HIGH_PAGE + p, q)
  }

  // Both updates find the level-3 table they need.
  ghost predicate PairFits(m: Words, t: Ld, limit: nat, p: nat, q: nat) {
    && p < GRANT_PAGES && q < PAGES && L3Table(t, t.pageCount) <= LIMIT_32
    && HasRoom(View(m, t, limit), p)
    && var s := SetPageSpec(m, t, p, q);
       && WellFormed(s.0, s.1, limit) && HasRoom(View(s.0, s.1, limit), HIGH_PAGE + p)
       && L3Table(s.1, s.1.pageCount) <= LIMIT_32
  }

  // Guest v's table after grant g, which is the next of the history.
  lemma GrantTable(su: Setup, v: nat, m: Words, t: Ld, hist: seq<Grant>, g: Grant, m': Words, t': Ld)
    requires SetupOk(su) && v < |su.guests| && |hist| < PAGE_COUNT && g.vm == v && Room(su, hist, g)
    requires Built(su, v, m, t, hist)
    ensures PairFits(m, t, su.limit, g.p, PoolPage(su, |hist| + 1))
    ensures PagePair(m, t, m', t', g.p, PoolPage(su, |hist| + 1)) ==>
      Built(su, v, m', t', hist + [g]) && SameOutside(m, m', su.guests[v].ptBase, TableEnd(su, v))
  {
    hide LoadD, Valid, SetPageSpec, WellFormed, View, PoolPage, GuestTab, SetPage, HasL3, TableTop;
    assert GuestOk(su, v);
    var q := PoolPage(su, |hist| + 1);
    PoolPageBound(su, |hist| + 1);
    var c := su.guests[v];
    LayoutOf(m, t, c, su.limit);
    GrantTab(su, v, View(m, t, su.limit), hist, g);
    SetPageView(m, t, su.limit, g.p, q);
    var s := SetPageSpec(m, t, g.p, q);
    LayoutOf(s.0, s.1, c, su.limit);
    SetPageView(s.0, s.1, su.limit, HIGH_PAGE + g.p, q);
    var u := SetPageSpec(s.0, s.1, HIGH_PAGE + g.p, q);
    LayoutOf(u.0, u.1, c, su.limit);
  }

  // Another guest's table.
  lemma OtherTable(su: Setup, v: nat, u: nat, m: Words, m': Words, t: Ld, hist: seq<Grant>, g: Grant)
    requires SetupOk(su) && v < |su.guests| && u < |su.guests| && u != v && g.vm == v
    requires |hist| < PAGE_COUNT && Built(su, u, m, t, hist)
    requires SameOutside(m, m', su.guests[v].ptBase, TableEnd(su, v))
    ensures Built(su, u, m', t, hist + [g])
  {
    hide LoadD, Valid, LinkedL1, LinkedL2, View, GuestOk, GuestPage, Lookup, Tidy, TableRegions;
    assert Init(hist + [g]) == hist;
    TableFrame(m, m', t, su.limit);
    forall x | 0 <= x < PAGES
      ensures GuestPage(su, u, hist + [g], x) == GuestPage(su, u, hist, x)
    {
      GuestPageAfter(su, u, hist, g, x);
    }
  }

  lemma UntouchedKept(su: Setup, v: nat, u: nat, m: Words, m': Words)
    requires SetupOk(su) && v < |su.guests| && u < |su.guests| && u != v && Untouched(su, u, m)
    requires SameOutside(m, m', su.guests[v].ptBase, TableEnd(su, v))
    ensures Untouched(su, u, m')
  {
    hide GuestOk;
  }

  lemma NextPool(su: Setup, pool: Pool, hist: seq<Grant>, g: Grant)
    requires Legal(su, hist) && Acceptable(su, g) && After(pool, Requests(hist), |hist|)
    ensures match Allocate(pool, RequestOf(g))
      case None => |hist| == PAGE_COUNT
      case Some(p) => |hist| < PAGE_COUNT && After(p, Requests(hist + [g]), |hist| + 1) && p.last == SlotOf(|hist| + 1)
  {
    hide OwnedSlots, ValidPool, Allocate;
    NextAllocation(pool, Requests(hist + [g]));
  }

  // Grant g is the next: of a guest that is set up, with a level-3 table and a pool page left.
  ghost predicate Grantable(su: Setup, hist: seq<Grant>, n: nat, g: Grant) {
    g.vm < n && Room(su, hist, g) && |hist| < PAGE_COUNT
  }

  // memory_allocator_new_page on values.
  ghost function NewPageSpec(su: Setup, w: World, hist: seq<Grant>, n: nat, g: Grant): (w': World)
    requires Inv(su, w, hist, n) && Grantable(su, hist, n, g)
  {
    NextPool(su, w.pool, hist, g);
    GrantTable(su, g.vm, w.m, w.ts[g.vm], hist, g, w.m, w.ts[g.vm]);
    var q := PoolPage(su, |hist| + 1);
    var s := SetPageSpec(w.m, w.ts[g.vm], g.p, q);
    var u := SetPageSpec(s.0, s.1, HIGH_PAGE + g.p, q);
    World(u.0, w.ts[g.vm := u.1], Allocate(w.pool, RequestOf(g)).value)
  }

  lemma SpecOfNewPage(su: Setup, w: World, hist: seq<Grant>, n: nat, g: Grant)
    requires Inv(su, w, hist, n) && Grantable(su, hist, n, g)
    ensures var w' := NewPageSpec(su, w, hist, n, g);
      && |w'.ts| == |w.ts| && g.vm < |w.ts|
      && PagePair(w.m, w.ts[g.vm], w'.m, w'.ts[g.vm], g.p, PoolPage(su, |hist| + 1))
      && w'.ts == w.ts[g.vm := w'.ts[g.vm]] && Allocate(w.pool, RequestOf(g)) == Some(w'.pool)
  {
    hide SetPageSpec, Allocate, Built, SetupOk, Untouched, PoolPage, OwnedSlots, ValidPool;
    NextPool(su, w.pool, hist, g);
    GrantTable(su, g.vm, w.m, w.ts[g.vm], hist, g, w.m, w.ts[g.vm]);
  }

  // Every allocation keeps the invariant, for the longer history.
  lemma NewPageKeepsInv(su: Setup, w: World, hist: seq<Grant>, n: nat, g: Grant)
    requires Inv(su, w, hist, n) && Grantable(su, hist, n, g)
    ensures Inv(su, NewPageSpec(su, w, hist, n, g), hist + [g], n)
    ensures g.vm < |su.guests|
    ensures SameOutside(w.m, NewPageSpec(su, w, hist, n, g).m, su.guests[g.vm].ptBase, TableEnd(su, g.vm))
  {
    hide NewPageSpec, PagePair, Built, SetupOk, Untouched, Allocate;
    InvParts(su, w, hist, n);
    SpecOfNewPage(su, w, hist, n, g);
    var w' := NewPageSpec(su, w, hist, n, g);
    GrantTable(su, g.vm, w.m, w.ts[g.vm], hist, g, w'.m, w'.ts[g.vm]);
    GrantKeepsInv(su, w, hist, n, g, w');
  }

  lemma GrantKeepsInv(su: Setup, w: World, hist: seq<Grant>, n: nat, g: Grant, w': World)
    requires Inv(su, w, hist, n) && Grantable(su, hist, n, g)
    requires |w'.ts| == |w.ts| && (forall u :: 0 <= u < |w.ts| && u != g.vm ==> w'.ts[u] == w.ts[u])
    requires Built(su, g.vm, w'.m, w'.ts[g.vm], hist + [g])
    requires SameOutside(w.m, w'.m, su.guests[g.vm].ptBase, TableEnd(su, g.vm))
    requires Allocate(w.pool, RequestOf(g)) == Some(w'.pool)
    ensures Inv(su, w', hist + [g], n)
  {
    hide Built, SetupOk, Untouched, Allocate, OwnedSlots, ValidPool;
    NextPool(su, w.pool, hist, g);
    LegalExtends(su, hist, g);
    forall u | 0 <= u < n
      ensures Built(su, u, w'.m, w'.ts[u], hist + [g])
    {
      if u != g.vm {
        OtherTable(su, g.vm, u, w.m, w'.m, w.ts[u], hist, g);
      }
    }
    forall u | n <= u < |su.guests|
      ensures Untouched(su, u, w'.m)
    {
      UntouchedKept(su, g.vm, u, w.m, w'.m);
    }
  }

  // ---------------------------------------------------------------------------------------
  // Setting up one more guest
  // ---------------------------------------------------------------------------------------

  lemma {:induction false} NotTouched(v: nat, hist: seq<Grant>)
    requires forall i :: 0 <= i < |hist| ==> hist[i].vm != v
    ensures Touched(v, hist) == DeviceRegions(5)
  {
    if hist != [] {
      NotTouched(v, Init(hist));
    }
  }

  // A guest without grants has its base map.
  lemma NewGuestTab(su: Setup, v: nat, tab: Tab, hist: seq<Grant>)
    requires v < |su.guests| && |hist| <= PAGE_COUNT && forall i :: 0 <= i < |hist| ==> hist[i].vm != v
    requires BuildTab(tab, su.guests[v], BaseBlocks(su, v), 5, su.limit)
    ensures GuestTab(su, v, tab, hist)
  {
    hide Lookup, BaseBlocks, BasePage, Tidy, TableRegions, DeviceRegions;
    NotTouched(v, hist);
    forall x | 0 <= x < PAGES
      ensures GuestPage(su, v, hist, x) == BaseOf(su, v, x)
    {
      GrantNoIs(hist, v, x);
    }
  }

  // Guest v's table has been built, and nothing outside its region has changed.
  lemma SetUpKeepsInv(su: Setup, w: World, hist: seq<Grant>, v: nat, w': World)
    requires Inv(su, w, hist, v) && v < |su.guests| && |w'.ts| == |w.ts| && w'.pool == w.pool
    requires forall u :: 0 <= u < |w.ts| && u != v ==> w'.ts[u] == w.ts[u]
    requires SameOutside(w.m, w'.m, su.guests[v].ptBase, TableEnd(su, v))
    requires w'.ts[v].l1Base == su.guests[v].ptBase && WellFormed(w'.m, w'.ts[v], su.limit)
    requires BuildTab(View(w'.m, w'.ts[v], su.limit), su.guests[v], BaseBlocks(su, v), 5, su.limit)
    ensures Inv(su, w', hist, v + 1)
  {
    hide BuildTab, WellFormed, View, GuestTab, SetupOk, Untouched, After;
    NewGuestTab(su, v, View(w'.m, w'.ts[v], su.limit), hist);
    forall u | 0 <= u < v
      ensures Built(su, u, w'.m, w'.ts[u], hist)
    {
      assert Built(su, u, w.m, w.ts[u], hist);
      OtherTableKept(su, v, u, w.m, w'.m, w.ts[u], hist);
    }
    forall u | v < u < |su.guests|
      ensures Untouched(su, u, w'.m)
    {
      UntouchedKept(su, v, u, w.m, w'.m);
    }
  }

  lemma OtherTableKept(su: Setup, v: nat, u: nat, m: Words, m': Words, t: Ld, hist: seq<Grant>)
    requires SetupOk(su) && v < |su.guests| && u < |su.guests| && u != v && |hist| <= PAGE_COUNT
    requires Built(su, u, m, t, hist) && SameOutside(m, m', su.guests[v].ptBase, TableEnd(su, v))
    ensures Built(su, u, m', t, hist)
  {
    hide LoadD, Valid, LinkedL1, LinkedL2, View, GuestOk, GuestTab;
    TableFrame(m, m', t, su.limit);
  }

  lemma NothingSetUp(su: Setup, m: Words, ts: seq<Ld>)
    requires SetupOk(su) && |ts| == |su.guests|
    requires forall v :: 0 <= v < |su.guests| ==> Untouched(su, v, m)
    ensures Inv(su, World(m, ts, EmptyPool()), [], 0)
  {
    hide SetupOk, Untouched, OwnedSlots;
    EmptyIsValid();
    forall v | 0 <= v < |su.guests|
      ensures |Touched(v, [])| <= su.limit
    {
      DevicesFit(su, v);
    }
  }

  lemma DevicesFit(su: Setup, v: nat)
    requires SetupOk(su) && v < |su.guests|
    ensures |DeviceRegions(5)| <= su.limit
  {
    assert GuestOk(su, v);
  }

  // ---------------------------------------------------------------------------------------
  // vmm/memory_allocator.c: memory_allocator_new_page
  // ---------------------------------------------------------------------------------------

  ghost function WorldOf(mem: Memory, pts: seq<PagetableLd>, alloc: MemoryAllocator): World
    requires alloc.Shaped()
    reads mem, pts, alloc.Objs()
  {
    World(mem.words, Vals(pts), alloc.View())
  }

  // The objects of the machine are distinct.
  ghost predicate Distinct(mem: Memory, pts: seq<PagetableLd>, alloc: MemoryAllocator) {
    && alloc.Shaped()
    && (forall i, j :: 0 <= i < j < |pts| ==> pts[i] != pts[j])
    && mem !in alloc.Objs()
    && (forall i :: 0 <= i < |pts| ==> pts[i] as object != mem && pts[i] !in alloc.Objs())
  }

  ghost predicate Ready(su: Setup, mem: Memory, pts: seq<PagetableLd>, alloc: MemoryAllocator, hist: seq<Grant>, n: nat)
    reads mem, pts, alloc.Objs()
  {
    && Distinct(mem, pts, alloc) && alloc.Valid() && alloc.memBase == su.memBase
    && Inv(su, WorldOf(mem, pts, alloc), hist, n)
  }

  lemma RamAddresses(su: Setup, ipa: u32, k: nat)
    requires su.memBase % 0x1000 == 0 && PoolEnd(su) <= LIMIT_32
    requires ipa % 0x1000 == 0 && ipa / 0x1000 < GRANT_PAGES && k <= PAGE_COUNT
    ensures var p := ipa / 0x1000;
      && ipa == p * 0x1000 && ipa + 0x7000_0000 == (HIGH_PAGE + p) * 0x1000
      && PageNo(ipa) == p && PageNo(ipa + 0x7000_0000) == HIGH_PAGE + p
      && PageAddress(su.memBase, SlotOf(k)) < LIMIT_32
      && PageAddress(su.memBase, SlotOf(k)) / 0x1000 == PoolPage(su, k)
  {
    var p := ipa / 0x1000;
    DivUnique((HIGH_PAGE + p) * 0x1000, 0x1000, HIGH_PAGE + p, 0);
    DivUnique(ipa, LIMIT_32, 0, ipa);
    DivUnique(ipa + 0x7000_0000, LIMIT_32, 0, ipa + 0x7000_0000);
    Addresses(su.memBase, SlotOf(k), SlotOf(k));
  }

  // Returns the page's address; false: no page is left and the program is left.
  method NewPage(ghost su: Setup, mem: Memory, pts: seq<PagetableLd>, alloc: MemoryAllocator, v: nat, ipa: u32,
                 high: u32, ghost hist: seq<Grant>, ghost n: nat)
    returns (pa: u32, ok: bool)
    requires Ready(su, mem, pts, alloc, hist, n)
    requires v < n && ipa % 0x1000 == 0 && high == ipa + 0x7000_0000 && Room(su, hist, Grant(v, ipa / 0x1000))
    modifies mem, pts, alloc.Objs()
    ensures ok <==> |hist| < PAGE_COUNT
    ensures ok ==> Ready(su, mem, pts, alloc, hist + [Grant(v, ipa / 0x1000)], n)
    ensures ok ==>
      WorldOf(mem, pts, alloc) == NewPageSpec(su, old(WorldOf(mem, pts, alloc)), hist, n, Grant(v, ipa / 0x1000))
    ensures ok ==> pa == PageAddress(su.memBase, SlotOf(|hist| + 1))
    ensures ok ==> (
      && v < |su.guests|
      && SameOutside(old(mem.words), mem.words, su.guests[v].ptBase, TableEnd(su, v)))
    ensures !ok ==> mem.words == old(mem.words)
  {
    hide Built, SetupOk, Untouched, Allocate, OwnedSlots, ValidPool, MemoryAllocator.View, PageAddress,
      PoolPage, NewPageSpec, Touched, PagePair;
    ghost var g, w := Grant(v, ipa / 0x1000), WorldOf(mem, pts, alloc);
    InvParts(su, w, hist, n);
    RamAddresses(su, ipa, 0);
    NextPool(su, w.pool, hist, g);
    var a, taken := alloc.Claim(Request(v, ipa, high));
    ok := taken;
    if !ok {
      pa := 0;
      return;
    }
    RamAddresses(su, ipa, |hist| + 1);
    pa := a;
    MapPair(su, mem, pts, v, ipa, high, pa, hist);
    GrantKeepsInv(su, w, hist, n, g, WorldOf(mem, pts, alloc));
    SpecOfNewPage(su, w, hist, n, g);
    PairIsFunction(w.m, w.ts[v], WorldOf(mem, pts, alloc), NewPageSpec(su, w, hist, n, g), v, g.p,
                   PoolPage(su, |hist| + 1));
  }

  lemma PairIsFunction(m: Words, t: Ld, a: World, b: World, v: nat, p: nat, q: nat)
    requires v < |a.ts| && v < |b.ts|
    requires PagePair(m, t, a.m, a.ts[v], p, q) && PagePair(m, t, b.m, b.ts[v], p, q)
    ensures a.m == b.m && a.ts[v] == b.ts[v]
  {
  }

  // The two pagetable_set_page calls.
  method MapPair(ghost su: Setup, mem: Memory, pts: seq<PagetableLd>, v: nat, ipa: u32, high: u32, pa: u32,
                 ghost hist: seq<Grant>)
    requires SetupOk(su) && v < |pts| == |su.guests| && (forall i, j :: 0 <= i < j < |pts| ==> pts[i] != pts[j])
    requires ipa % 0x1000 == 0 && high == ipa + 0x7000_0000
    requires |hist| < PAGE_COUNT && Room(su, hist, Grant(v, ipa / 0x1000))
    requires pa == PageAddress(su.memBase, SlotOf(|hist| + 1)) && Built(su, v, mem.words, pts[v].Val(), hist)
    modifies mem, pts[v]
    ensures Built(su, v, mem.words, pts[v].Val(), hist + [Grant(v, ipa / 0x1000)])
    ensures SameOutside(old(mem.words), mem.words, su.guests[v].ptBase, TableEnd(su, v))
    ensures PagePair(old(mem.words), old(pts[v].Val()), mem.words, pts[v].Val(), ipa / 0x1000, PoolPage(su, |hist| + 1))
  {
    hide SetupOk, PageAddress, PoolPage, SetPageSpec, View, WellFormed, TableModel.SetPage, GuestTab, Touched,
      Valid, HasL3;
    ghost var g, m, t := Grant(v, ipa / 0x1000), mem.words, pts[v].Val();
    PoolFits(su);
    RamAddresses(su, ipa, |hist| + 1);
    GrantTable(su, v, m, t, hist, g, m, t);
    pts[v].SetPage(mem, ipa, pa, su.limit);
    pts[v].SetPage(mem, high, pa, su.limit);
    GrantTable(su, v, m, t, hist, g, mem.words, pts[v].Val());
  }
}
