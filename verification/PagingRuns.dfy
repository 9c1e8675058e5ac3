// Runs of accesses: guests load and store through their tables, and an access to an address that
// is not mapped has a page of the pool mapped there and is redone.
module PagingRuns {
  import opened Options
  import opened BitOps
  import opened PhysMem
  import opened Streams
  import opened Walker
  import opened TableModel
  import opened PageTable
  import opened GuestTables
  import opened Allocator
  import opened Paging
  import opened Faults

  // ---------------------------------------------------------------------------------------
  // Memory outside the tables
  // ---------------------------------------------------------------------------------------

  ghost predicate TablesKept(su: Setup, m: Words, m': Words) {
    forall v :: 0 <= v < |su.guests| ==> SameOn(m, m', su.guests[v].ptBase, TableEnd(su, v))
  }

  lemma MemoryKeepsInv(su: Setup, w: World, m': Words, hist: seq<Grant>, n: nat)
    requires Inv(su, w, hist, n) && TablesKept(su, w.m, m')
    ensures Inv(su, w.(m := m'), hist, n)
  {
    hide View, SetupOk, After, LinkedL1, LinkedL2, Valid, GuestTab, Legal;
    InvParts(su, w, hist, n);
    forall v | 0 <= v < n
      ensures Built(su, v, m', w.ts[v], hist)
    {
      assert Built(su, v, w.m, w.ts[v], hist);
      LayoutOf(w.m, w.ts[v], su.guests[v], su.limit);
      TableFrame(w.m, m', w.ts[v], su.limit);
    }
    forall v | n <= v < |su.guests|
      ensures Untouched(su, v, m')
    {
      assert Untouched(su, v, w.m);
      UntouchedOn(su, v, w.m, m');
    }
  }

  lemma UntouchedOn(su: Setup, v: nat, m: Words, m': Words)
    requires v < |su.guests| && Untouched(su, v, m) && SameOn(m, m', su.guests[v].ptBase, TableEnd(su, v))
    ensures Untouched(su, v, m')
  {
  }

  lemma ByteKeepsTables(su: Setup, m: Words, pa: nat, b: byte)
    requires SetupOk(su)
    requires forall v :: 0 <= v < |su.guests| ==> pa < su.guests[v].ptBase || TableEnd(su, v) <= pa
    ensures TablesKept(su, m, StoreB(m, pa, b))
  {
    forall v | 0 <= v < |su.guests|
      ensures SameOn(m, StoreB(m, pa, b), su.guests[v].ptBase, TableEnd(su, v))
    {
      assert GuestOk(su, v);
      FourAligned(su.guests[v].ptBase, 5 + su.limit);
      ByteOutside(m, pa, b, su.guests[v].ptBase, TableEnd(su, v));
    }
  }

  lemma FourAligned(a: nat, k: nat)
    requires a % 0x1000 == 0
    ensures a % 4 == 0 && (a + 0x1000 * k) % 4 == 0
  {
    DivUnique(a, 4, 0x400 * (a / 0x1000), 0);
    DivUnique(a + 0x1000 * k, 4, 0x400 * (a / 0x1000) + 0x400 * k, 0);
  }

  // A store by any guest keeps every table.
  lemma StoreKeepsInv(su: Setup, w: World, hist: seq<Grant>, n: nat, v: nat, x: u32, data: byte)
    requires Inv(su, w, hist, n) && v < n
    ensures v < |su.guests| && Inv(su, w.(m := StoreVia(w.m, su.guests[v].ptBase, x, data)), hist, n)
  {
    hide Built, Untouched, After, Legal, Translate, SetupOk, StoreB;
    if Translate(w.m, su.guests[v].ptBase, x).Some? {
      forall u | 0 <= u < |su.guests|
        ensures var pa := Translate(w.m, su.guests[v].ptBase, x).value;
          pa < su.guests[u].ptBase || TableEnd(su, u) <= pa
      {
        TablesUnreachable(su, w, hist, n, v, x, u);
      }
      ByteKeepsTables(su, w.m, Translate(w.m, su.guests[v].ptBase, x).value, data);
    } else {
      assert TablesKept(su, w.m, w.m);
    }
    MemoryKeepsInv(su, w, StoreVia(w.m, su.guests[v].ptBase, x, data), hist, n);
  }

  // ---------------------------------------------------------------------------------------
  // Faults
  // ---------------------------------------------------------------------------------------

  function FaultGrant(v: nat, x: u32): Grant {
    Grant(v, FaultPage(x))
  }

  // An address of guest v that the base map leaves out and for which the handler allocates.
  predicate Escapes(su: Setup, v: nat, x: u32)
    requires v < |su.guests|
  {
    Served(x) && BaseOf(su, v, x / 0x1000) == None
  }

  lemma EscapeIsAcceptable(su: Setup, v: nat, x: u32)
    requires v < |su.guests| && Escapes(su, v, x)
    ensures Acceptable(su, FaultGrant(v, x))
  {
    hide Frame, DeviceAt, Blocks;
    ServedPages(x);
  }

  // Served and not mapped: exactly the escapes that no allocation has answered yet.
  lemma FaultMeansUngranted(su: Setup, w: World, hist: seq<Grant>, n: nat, v: nat, x: u32)
    requires Inv(su, w, hist, n) && v < n
    ensures v < |su.guests|
    ensures Served(x) && Translate(w.m, su.guests[v].ptBase, x) == None
      <==> Escapes(su, v, x) && FaultGrant(v, x) !in hist
  {
    hide Translate, Built, SetupOk, Untouched, After, BaseOf, Served;
    InvParts(su, w, hist, n);
    ServedPages(x);
    TranslatesHistory(su, w, hist, n, v, x);
    if Served(x) {
      PairOfGrant(su, hist, v, FaultPage(x));
    }
  }

  // A byte access executed by a guest.
  datatype Access = Access(vm: nat, x: u32, store: Option<byte>)

  ghost predicate Faulting(su: Setup, w: World, a: Access)
    requires a.vm < |su.guests|
  {
    Served(a.x) && Translate(w.m, su.guests[a.vm].ptBase, a.x) == None
  }

  // A fault needs a page of the pool and level-3 tables.
  ghost predicate Possible(su: Setup, w: World, hist: seq<Grant>, n: nat, a: Access)
    requires n <= |su.guests|
  {
    a.vm < n && (Faulting(su, w, a) ==> Grantable(su, hist, n, FaultGrant(a.vm, a.x)))
  }

  // The access through the table.  Where nothing is mapped it is carried out by an emulated
  // device, and memory stays.
  function Perform(su: Setup, w: World, a: Access): World
    requires a.vm < |su.guests|
  {
    match a.store
    case None => w
    case Some(b) => w.(m := StoreVia(w.m, su.guests[a.vm].ptBase, a.x, b))
  }

  ghost function StepAccess(su: Setup, w: World, hist: seq<Grant>, n: nat, a: Access): (World, seq<Grant>)
    requires Inv(su, w, hist, n) && Possible(su, w, hist, n, a)
  {
    if Faulting(su, w, a) then
      var g := FaultGrant(a.vm, a.x);
      (Perform(su, NewPageSpec(su, w, hist, n, g), a), hist + [g])
    else (Perform(su, w, a), hist)
  }

  lemma StepKeepsInv(su: Setup, w: World, hist: seq<Grant>, n: nat, a: Access)
    requires Inv(su, w, hist, n) && Possible(su, w, hist, n, a)
    ensures Inv(su, StepAccess(su, w, hist, n, a).0, StepAccess(su, w, hist, n, a).1, n)
  {
    hide Inv, NewPageSpec, Grantable, StoreVia, Translate, Served;
    SetUpSize(su, w, hist, n);
    if Faulting(su, w, a) {
      var g := FaultGrant(a.vm, a.x);
      NewPageKeepsInv(su, w, hist, n, g);
      PerformKeepsInv(su, NewPageSpec(su, w, hist, n, g), hist + [g], n, a);
    } else {
      PerformKeepsInv(su, w, hist, n, a);
    }
  }

  lemma PerformKeepsInv(su: Setup, w: World, hist: seq<Grant>, n: nat, a: Access)
    requires Inv(su, w, hist, n) && a.vm < n <= |su.guests|
    ensures Inv(su, Perform(su, w, a), hist, n)
  {
    hide Inv, StoreVia;
    match a.store
    case None =>
    case Some(b) => StoreKeepsInv(su, w, hist, n, a.vm, a.x, b);
  }

  // The state after a run, if pages and tables sufficed.
  ghost function RunAccesses(su: Setup, w: World, hist: seq<Grant>, n: nat, run: seq<Access>)
    : (s: Option<(World, seq<Grant>)>)
    requires Inv(su, w, hist, n)
    ensures s.Some? ==> Inv(su, s.value.0, s.value.1, n)
  {
    if run == [] then Some((w, hist))
    else match RunAccesses(su, w, hist, n, Init(run))
    case None => None
    case Some(s) =>
      if Possible(su, s.0, s.1, n, Last(run)) then
        StepKeepsInv(su, s.0, s.1, n, Last(run));
        Some(StepAccess(su, s.0, s.1, n, Last(run)))
      else None
  }

  ghost predicate NoRepeats(gs: seq<Grant>) {
    forall i, j :: 0 <= i < j < |gs| ==> gs[i] != gs[j]
  }

  // hist' continues hist, and nothing of hist is granted again.
  ghost predicate Continues(hist: seq<Grant>, hist': seq<Grant>) {
    hist <= hist' && (NoRepeats(hist) ==> NoRepeats(hist')) && forall i :: |hist| <= i < |hist'| ==> hist'[i] !in hist
  }

  // Some access of the run escapes to the pair of g.
  ghost predicate Asks(su: Setup, n: nat, run: seq<Access>, g: Grant)
    requires n <= |su.guests|
  {
    exists k :: 0 <= k < |run| && AskedBy(su, n, run[k], g)
  }

  ghost predicate AskedBy(su: Setup, n: nat, a: Access, g: Grant)
    requires n <= |su.guests|
  {
    a.vm < n && Escapes(su, a.vm, a.x) && FaultGrant(a.vm, a.x) == g
  }

  // The pages allocated during a run are exactly those of its escapes, each at most once.
  lemma {:induction false} RunGrants(su: Setup, w: World, hist: seq<Grant>, n: nat, run: seq<Access>, g: Grant)
    requires Inv(su, w, hist, n)
    ensures n <= |su.guests|
    ensures match RunAccesses(su, w, hist, n, run)
      case None => true
      case Some(s) => Continues(hist, s.1) && (g in s.1 <==> g in hist || Asks(su, n, run, g))
  {
    hide Inv, Possible, StepAccess, AskedBy, Continues;
    SetUpSize(su, w, hist, n);
    if run == [] {
      NothingAsked(hist);
    } else if RunAccesses(su, w, hist, n, run).Some? {
      RunGrants(su, w, hist, n, Init(run), g);
      var s := RunAccesses(su, w, hist, n, Init(run)).value;
      StepGrants(su, s.0, s.1, n, Last(run), hist, g);
      AsksLast(su, n, run, g);
    }
  }

  lemma NothingAsked(hist: seq<Grant>)
    ensures Continues(hist, hist)
  {
  }

  lemma AsksLast(su: Setup, n: nat, run: seq<Access>, g: Grant)
    requires n <= |su.guests| && run != []
    ensures Asks(su, n, run, g) <==> Asks(su, n, Init(run), g) || AskedBy(su, n, Last(run), g)
  {
    hide AskedBy;
    if Asks(su, n, Init(run), g) {
      var k :| 0 <= k < |Init(run)| && AskedBy(su, n, Init(run)[k], g);
      assert AskedBy(su, n, run[k], g);
    }
    if AskedBy(su, n, Last(run), g) {
      assert AskedBy(su, n, run[|run| - 1], g);
    }
  }

  lemma SetUpSize(su: Setup, w: World, hist: seq<Grant>, n: nat)
    requires Inv(su, w, hist, n)
    ensures n <= |su.guests|
  {
  }

  lemma StepGrants(su: Setup, w: World, hist: seq<Grant>, n: nat, a: Access, hist0: seq<Grant>, g: Grant)
    requires Inv(su, w, hist, n) && Possible(su, w, hist, n, a) && Continues(hist0, hist)
    ensures var h := StepAccess(su, w, hist, n, a).1;
      Continues(hist0, h) && (g in h <==> g in hist || AskedBy(su, n, a, g))
  {
    hide Translate, Built, SetupOk, Untouched, After, Legal, NewPageSpec, Perform, BaseOf, Served, Room;
    FaultMeansUngranted(su, w, hist, n, a.vm, a.x);
  }

  // A run without escapes allocates nothing and is never stopped.
  lemma {:induction false} NoEscapes(su: Setup, w: World, hist: seq<Grant>, n: nat, run: seq<Access>)
    requires Inv(su, w, hist, n)
    ensures n <= |su.guests|
    ensures (forall k :: 0 <= k < |run| ==> run[k].vm < n && !Escapes(su, run[k].vm, run[k].x)) ==>
      RunAccesses(su, w, hist, n, run).Some? && RunAccesses(su, w, hist, n, run).value.1 == hist
  {
    hide Inv, Escapes, Translate, Served;
    SetUpSize(su, w, hist, n);
    if run != [] && forall k :: 0 <= k < |run| ==> run[k].vm < n && !Escapes(su, run[k].vm, run[k].x) {
      var a := run[|run| - 1];
      assert a.vm < n && !Escapes(su, a.vm, a.x);
      NoEscapes(su, w, hist, n, Init(run));
      var s := RunAccesses(su, w, hist, n, Init(run)).value;
      FaultMeansUngranted(su, s.0, s.1, n, a.vm, a.x);
    }
  }

  // ---------------------------------------------------------------------------------------
  // The history of a run, from the run alone
  // ---------------------------------------------------------------------------------------

  // The history after hist and a run: every escape that is not answered yet adds its pair.
  function Answers(su: Setup, hist: seq<Grant>, n: nat, run: seq<Access>): seq<Grant>
    requires n <= |su.guests|
  {
    if run == [] then hist else Answer(su, Answers(su, hist, n, Init(run)), n, Last(run))
  }

  function Answer(su: Setup, hist: seq<Grant>, n: nat, a: Access): seq<Grant>
    requires n <= |su.guests|
  {
    if a.vm < n && Escapes(su, a.vm, a.x) && FaultGrant(a.vm, a.x) !in hist then hist + [FaultGrant(a.vm, a.x)]
    else hist
  }

  // The escapes of a run in the order of their first occurrence.
  function FirstEscapes(su: Setup, n: nat, run: seq<Access>): seq<Grant>
    requires n <= |su.guests|
  {
    Answers(su, [], n, run)
  }

  lemma LegalPrefix(su: Setup, hist: seq<Grant>, g: Grant)
    requires Legal(su, hist + [g])
    ensures Legal(su, hist) && Room(su, hist, g) && |hist| < PAGE_COUNT
  {
    var h := hist + [g];
    assert Init(h) == hist && h[|hist|] == g;
    forall i | 0 <= i < |hist|
      ensures Acceptable(su, hist[i])
    {
      assert h[i] == hist[i];
    }
    forall v | 0 <= v < |su.guests|
      ensures |Touched(v, hist)| <= su.limit
    {
      SubsetSize(Touched(v, hist), Touched(v, h));
    }
  }

  // An access of a guest that is set up is possible exactly if pool and tables bear its answer.
  lemma StepAnswers(su: Setup, w: World, hist: seq<Grant>, n: nat, a: Access)
    requires Inv(su, w, hist, n) && a.vm < n
    ensures n <= |su.guests|
    ensures Possible(su, w, hist, n, a) <==> Legal(su, Answer(su, hist, n, a))
    ensures Possible(su, w, hist, n, a) ==> StepAccess(su, w, hist, n, a).1 == Answer(su, hist, n, a)
  {
    hide Translate, Built, SetupOk, Untouched, After, Legal, NewPageSpec, Perform, Served, Room, Escapes;
    FaultMeansUngranted(su, w, hist, n, a.vm, a.x);
    var g := FaultGrant(a.vm, a.x);
    if Faulting(su, w, a) {
      if Legal(su, hist + [g]) {
        LegalPrefix(su, hist, g);
      }
      if Room(su, hist, g) && |hist| < PAGE_COUNT {
        LegalExtends(su, hist, g);
      }
    }
  }

  // A run of guests that are set up is never stopped exactly if pool and level-3 tables bear its
  // escapes, and these in their order are what it allocates.
  lemma {:induction false} RunIsAnswers(su: Setup, w: World, hist: seq<Grant>, n: nat, run: seq<Access>)
    requires Inv(su, w, hist, n)
    ensures n <= |su.guests|
    ensures match RunAccesses(su, w, hist, n, run)
      case None => !(ByFirst(n, run) && Legal(su, Answers(su, hist, n, run)))
      case Some(s) => ByFirst(n, run) && Legal(su, Answers(su, hist, n, run)) && s.1 == Answers(su, hist, n, run)
  {
    hide Inv, Possible, StepAccess, Legal, Answer, ByFirst;
    SetUpSize(su, w, hist, n);
    ByFirstLast(n, run);
    if run == [] {
      InvParts(su, w, hist, n);
    } else {
      RunIsAnswers(su, w, hist, n, Init(run));
      AnswerLegal(su, Answers(su, hist, n, Init(run)), n, Last(run));
      if RunAccesses(su, w, hist, n, Init(run)).Some? {
        var s := RunAccesses(su, w, hist, n, Init(run)).value;
        if Last(run).vm < n {
          StepAnswers(su, s.0, s.1, n, Last(run));
        } else {
          NotSetUp(su, s.0, s.1, n, Last(run));
        }
      }
    }
  }

  lemma NotSetUp(su: Setup, w: World, hist: seq<Grant>, n: nat, a: Access)
    requires n <= |su.guests| && n <= a.vm
    ensures !Possible(su, w, hist, n, a)
  {
  }

  lemma AnswerLegal(su: Setup, hist: seq<Grant>, n: nat, a: Access)
    requires n <= |su.guests|
    ensures Legal(su, Answer(su, hist, n, a)) ==> Legal(su, hist)
  {
    hide Legal, Escapes;
    if Legal(su, hist + [FaultGrant(a.vm, a.x)]) {
      LegalPrefix(su, hist, FaultGrant(a.vm, a.x));
    }
  }

  // All accesses are by the first n guests.
  ghost predicate ByFirst(n: nat, run: seq<Access>) {
    forall k :: 0 <= k < |run| ==> run[k].vm < n
  }

  lemma ByFirstLast(n: nat, run: seq<Access>)
    ensures run == [] ==> ByFirst(n, run)
    ensures run != [] ==> (ByFirst(n, run) <==> ByFirst(n, Init(run)) && Last(run).vm < n)
  {
    assert run != [] ==> Last(run) == run[|run| - 1];
  }

  // ---------------------------------------------------------------------------------------
  // Progress
  // ---------------------------------------------------------------------------------------

  // The pairs of guest v that no grant covers.
  ghost function Ungranted(v: nat, hist: seq<Grant>): set<nat> {
    set p | 0 <= p < GRANT_PAGES && Grant(v, p) !in hist
  }

  // Two addresses of the same pair.
  predicate SamePair(x: u32, y: u32) {
    y / 0x1000 == FaultPage(x) || y / 0x1000 == HIGH_PAGE + FaultPage(x)
  }

  // A fault makes the faulting address and its alias translate, to the same place of the page
  // just allocated, keeps every other translation of every guest, and leaves one pair fewer.
  lemma FaultProgress(su: Setup, w: World, hist: seq<Grant>, n: nat, a: Access, u: nat, y: u32)
    requires Inv(su, w, hist, n) && Possible(su, w, hist, n, a) && Faulting(su, w, a) && u < n <= |su.guests|
    ensures var s := StepAccess(su, w, hist, n, a);
      && SamePair(a.x, a.x) && |hist| < PAGE_COUNT
      && Translate(s.0.m, su.guests[u].ptBase, y)
           == (if u == a.vm && SamePair(a.x, y) then Some(PageAddress(su.memBase, SlotOf(|hist| + 1)) + y % 0x1000)
               else Translate(w.m, su.guests[u].ptBase, y))
      && |Ungranted(u, s.1)| == |Ungranted(u, hist)| - (if u == a.vm then 1 else 0)
  {
    hide Translate, Built, SetupOk, Untouched, After, NewPageSpec, GuestPage, Perform, Legal;
    var g, s := FaultGrant(a.vm, a.x), StepAccess(su, w, hist, n, a);
    StepKeepsInv(su, w, hist, n, a);
    FaultMeansUngranted(su, w, hist, n, a.vm, a.x);
    ServedPages(a.x);
    TranslatesHistory(su, w, hist, n, u, y);
    TranslatesHistory(su, s.0, s.1, n, u, y);
    GuestPageAfter(su, u, hist, g, y / 0x1000);
    InvParts(su, w, hist, n);
    Addresses(su.memBase, SlotOf(|hist| + 1), SlotOf(|hist| + 1));
    if u == a.vm {
      assert Ungranted(u, s.1) == Ungranted(u, hist) - {g.p};
    } else {
      assert Ungranted(u, s.1) == Ungranted(u, hist);
    }
  }

  // The faults of guest v in a run.
  ghost function FaultsOf(su: Setup, w: World, hist: seq<Grant>, n: nat, run: seq<Access>, v: nat): nat
    requires Inv(su, w, hist, n)
  {
    if run == [] then 0
    else
      var a := Last(run);
      FaultsOf(su, w, hist, n, Init(run), v) +
      match RunAccesses(su, w, hist, n, Init(run))
      case None => 0
      case Some(s) => if a.vm == v && v < |su.guests| && Faulting(su, s.0, a) then 1 else 0
  }

  // Over every run a guest faults exactly once for each pair that becomes granted.
  lemma {:induction false} FaultsAreBounded(su: Setup, w: World, hist: seq<Grant>, n: nat, run: seq<Access>, v: nat)
    requires Inv(su, w, hist, n) && v < n
    ensures match RunAccesses(su, w, hist, n, run)
      case None => true
      case Some(s) => FaultsOf(su, w, hist, n, run, v) + |Ungranted(v, s.1)| == |Ungranted(v, hist)| <= GRANT_PAGES
  {
    hide Inv, Possible, StepAccess, Ungranted, Translate;
    SetUpSize(su, w, hist, n);
    if run == [] {
      AllPairs(v, hist);
    } else if RunAccesses(su, w, hist, n, run).Some? {
      FaultsAreBounded(su, w, hist, n, Init(run), v);
      var s := RunAccesses(su, w, hist, n, Init(run)).value;
      AccessProgress(su, s.0, s.1, n, Last(run), v);
    }
  }

  lemma AllPairs(v: nat, hist: seq<Grant>)
    ensures |Ungranted(v, hist)| <= GRANT_PAGES
  {
    SubsetSize(Ungranted(v, hist), Below(GRANT_PAGES));
  }

  lemma AccessProgress(su: Setup, w: World, hist: seq<Grant>, n: nat, a: Access, v: nat)
    requires Inv(su, w, hist, n) && Possible(su, w, hist, n, a) && v < n
    ensures |Ungranted(v, StepAccess(su, w, hist, n, a).1)| + (if Faulting(su, w, a) && a.vm == v then 1 else 0)
         == |Ungranted(v, hist)|
  {
    hide Built, SetupOk, Untouched, After, Ungranted, StoreVia, NewPageSpec, Translate, Grantable;
    if Faulting(su, w, a) {
      FaultProgress(su, w, hist, n, a, v, 0);
    }
  }

  // ---------------------------------------------------------------------------------------
  // What a run does to the translations
  // ---------------------------------------------------------------------------------------

  // Input page x of guest v is one of the pair of g.
  predicate Covers(g: Grant, v: nat, x: nat) {
    g.vm == v && (x == g.p || x == HIGH_PAGE + g.p)
  }

  lemma {:induction false} GrantNoLater(hist: seq<Grant>, hist': seq<Grant>, v: nat, x: nat)
    requires hist <= hist'
    ensures if exists i :: |hist| <= i < |hist'| && Covers(hist'[i], v, x) then GrantNo(hist', v, x) > |hist|
      else GrantNo(hist', v, x) == GrantNo(hist, v, x)
  {
    if |hist'| > |hist| {
      GrantNoLater(hist, Init(hist'), v, x);
      if exists i :: |hist| <= i < |Init(hist')| && Covers(Init(hist')[i], v, x) {
        var i :| |hist| <= i < |Init(hist')| && Covers(Init(hist')[i], v, x);
        assert Covers(hist'[i], v, x);
      }
      assert Covers(Last(hist'), v, x) == Covers(hist'[|hist'| - 1], v, x);
    } else {
      assert hist == hist';
    }
  }

  // A low page above the blocks is mapped by the base map only if it is a device page; its alias
  // never is.
  lemma AliasIsFree(su: Setup, g: Grant)
    requires Acceptable(su, g)
    ensures BaseOf(su, g.vm, HIGH_PAGE + g.p) == None
    ensures BaseOf(su, g.vm, g.p).Some? <==> IsDevicePage(g.p)
  {
    hide Frame, Blocks;
    DevicePages(su.guests[g.vm], g.p);
    DevicePages(su.guests[g.vm], HIGH_PAGE + g.p);
  }

  predicate IsDevicePage(p: nat) {
    p == 0x1_0009 || p == 0x1_0011 || p == 0x1_0012 || p == 0x1_E000 || p == 0x2_0000
  }

  lemma DevicePages(c: Config, p: nat)
    ensures DeviceAt(c, 5, p).Some? <==> IsDevicePage(p)
  {
    assert DeviceAt(c, 5, p) == if p == 0x2_0000 then Some(c.blackHole / 0x1000) else DeviceAt(c, 4, p);
    assert DeviceAt(c, 4, p) == if p == 0x1_E000 then Some(c.vcpuIf / 0x1000) else DeviceAt(c, 3, p);
    assert DeviceAt(c, 3, p) == if p == 0x1_0012 then Some(c.timer2 / 0x1000) else DeviceAt(c, 2, p);
    assert DeviceAt(c, 2, p) == if p == 0x1_0011 then Some(c.timer0 / 0x1000) else DeviceAt(c, 1, p);
    assert DeviceAt(c, 1, p) == if p == 0x1_0009 then Some(c.uart / 0x1000) else None;
  }

  // Every guest's page that was mapped is still mapped, to the same place.
  ghost predicate KeepsMap(su: Setup, w: World, w': World, n: nat)
    requires n <= |su.guests|
  {
    forall v, x: u32 :: 0 <= v < n ==> KeepsAddress(su, w, w', v, x)
  }

  predicate KeepsAddress(su: Setup, w: World, w': World, v: nat, x: u32)
    requires v < |su.guests|
  {
    Translate(w.m, su.guests[v].ptBase, x).Some? ==>
      Translate(w'.m, su.guests[v].ptBase, x) == Translate(w.m, su.guests[v].ptBase, x)
  }

  // A run keeps what is mapped exactly if no access of it is to the unmapped high alias of a
  // device page: the page allocated there would take the place of the device.
  lemma TranslationsStay(su: Setup, w: World, hist: seq<Grant>, n: nat, run: seq<Access>)
    requires Inv(su, w, hist, n) && PoolClear(su)
    ensures n <= |su.guests|
    ensures match RunAccesses(su, w, hist, n, run)
      case None => true
      case Some(s) => KeepsMap(su, w, s.0, n) <==>
        forall k :: 0 <= k < |run| && run[k].vm < n ==> !TakesDevice(su, hist, run[k])
  {
    hide Inv, RunAccesses, Translate, Escapes, PoolClear;
    SetUpSize(su, w, hist, n);
    var r := RunAccesses(su, w, hist, n, run);
    if r.Some? {
      var s := r.value;
      if forall k :: 0 <= k < |run| && run[k].vm < n ==> !TakesDevice(su, hist, run[k]) {
        forall v, x: u32 | 0 <= v < n
          ensures KeepsAddress(su, w, s.0, v, x)
        {
          AddressStays(su, w, hist, n, run, v, x);
        }
      } else {
        var k :| 0 <= k < |run| && run[k].vm < n && TakesDevice(su, hist, run[k]);
        DeviceLost(su, w, hist, n, run, k);
      }
    }
  }

  // The access escapes to the alias of a device page and no earlier allocation has answered it.
  ghost predicate TakesDevice(su: Setup, hist: seq<Grant>, a: Access)
    requires a.vm < |su.guests|
  {
    Escapes(su, a.vm, a.x) && FaultGrant(a.vm, a.x) !in hist && IsDevicePage(FaultPage(a.x))
  }

  lemma AddressStays(su: Setup, w: World, hist: seq<Grant>, n: nat, run: seq<Access>, v: nat, x: u32)
    requires Inv(su, w, hist, n) && v < n <= |su.guests| && RunAccesses(su, w, hist, n, run).Some?
    requires forall k :: 0 <= k < |run| && run[k].vm < n ==> !TakesDevice(su, hist, run[k])
    ensures KeepsAddress(su, w, RunAccesses(su, w, hist, n, run).value.0, v, x)
  {
    hide RunAccesses, Translate, Built, SetupOk, Untouched, After, BaseOf, Touched, Escapes;
    var s := RunAccesses(su, w, hist, n, run).value;
    TranslatesHistory(su, w, hist, n, v, x);
    TranslatesHistory(su, s.0, s.1, n, v, x);
    RunGrants(su, w, hist, n, run, Grant(v, 0));
    GrantNoLater(hist, s.1, v, x / 0x1000);
    GrantNoIs(hist, v, x / 0x1000);
    RegionOfAddress(x);
    if exists i :: |hist| <= i < |s.1| && Covers(s.1[i], v, x / 0x1000) {
      var i :| |hist| <= i < |s.1| && Covers(s.1[i], v, x / 0x1000);
      var g := s.1[i];
      RunGrants(su, w, hist, n, run, g);
      var k :| 0 <= k < |run| && AskedBy(su, n, run[k], g);
      assert !TakesDevice(su, hist, run[k]);
      AliasIsFree(su, g);
      SamePairTwice(su, hist, v, x / 0x1000, g);
    }
  }

  // A pair granted for the first time was not covered before.
  lemma SamePairTwice(su: Setup, hist: seq<Grant>, v: nat, x: nat, g: Grant)
    requires Acceptable(su, g) && g !in hist && Covers(g, v, x)
    requires forall i :: 0 <= i < |hist| ==> Acceptable(su, hist[i])
    ensures GrantNo(hist, v, x) == 0
  {
    PairOfGrant(su, hist, v, g.p);
  }

  lemma DeviceLost(su: Setup, w: World, hist: seq<Grant>, n: nat, run: seq<Access>, k: nat)
    requires Inv(su, w, hist, n) && n <= |su.guests| && PoolClear(su) && RunAccesses(su, w, hist, n, run).Some?
    requires k < |run| && run[k].vm < n && TakesDevice(su, hist, run[k])
    ensures !KeepsMap(su, w, RunAccesses(su, w, hist, n, run).value.0, n)
  {
    hide RunAccesses, Translate, Built, SetupOk, Untouched, After, BaseOf, Touched, Escapes;
    var s, a := RunAccesses(su, w, hist, n, run).value, run[k];
    var g := FaultGrant(a.vm, a.x);
    InvParts(su, w, hist, n);
    EscapeIsAcceptable(su, a.vm, a.x);
    assert AskedBy(su, n, run[k], g);
    RunGrants(su, w, hist, n, run, g);
    AliasIsFree(su, g);
    InvParts(su, s.0, s.1, n);
    TranslatesPair(su, w, hist, n, g.vm, g.p, 0);
    TranslatesPair(su, s.0, s.1, n, g.vm, g.p, 0);
    var j := GrantNo(s.1, g.vm, g.p);
    BaseMisses(su, g.vm, g.p, SlotOf(j));
    assert !KeepsAddress(su, w, s.0, g.vm, g.p * 0x1000);
  }

  // ---------------------------------------------------------------------------------------
  // Memory of the pool
  // ---------------------------------------------------------------------------------------

  // Physical byte pa is on the page of a grant to guest v.
  ghost predicate OnPageOf(su: Setup, hist: seq<Grant>, v: nat, pa: nat) {
    exists k :: 0 < k <= |hist| <= PAGE_COUNT && hist[k - 1].vm == v && pa / 0x1000 == PoolPage(su, k)
  }

  // A step of another guest leaves it alone.
  lemma OthersMiss(su: Setup, w: World, hist: seq<Grant>, n: nat, v: nat, u: nat, x: u32, data: byte, pa: nat)
    requires Inv(su, w, hist, n) && PoolClear(su) && u < n && u != v && OnPageOf(su, hist, v, pa)
    ensures u < |su.guests| && LoadB(StoreVia(w.m, su.guests[u].ptBase, x, data), pa) == LoadB(w.m, pa)
  {
    hide Translate, Built, Untouched, GuestPage, After, Legal, SetupOk, LoadB, StoreB;
    InvParts(su, w, hist, n);
    TranslatesHistory(su, w, hist, n, u, x);
    RegionOfAddress(x);
    var q := GuestPage(su, u, hist, x / 0x1000);
    if q.Some? {
      var k :| 0 < k <= |hist| <= PAGE_COUNT && hist[k - 1].vm == v && pa / 0x1000 == PoolPage(su, k);
      InPoolMeansGranted(su, hist, u, x / 0x1000);
      var to := q.value * 0x1000 + x % 0x1000;
      DivUnique(to, 0x1000, q.value, x % 0x1000);
      PoolHas(su, k);
      LoadStoreB(w.m, to, data, pa);
    }
  }

  lemma PoolHas(su: Setup, k: nat)
    requires 0 < k <= PAGE_COUNT && su.memBase % 0x1000 == 0
    ensures !OutsidePool(su, PoolPage(su, k))
    ensures forall j: nat :: 0 < j <= PAGE_COUNT && PoolPage(su, j) == PoolPage(su, k) ==> j == k
  {
  }

  // An allocation touches no page of the pool.
  lemma GrantMisses(su: Setup, w: World, hist: seq<Grant>, n: nat, g: Grant, v: nat, pa: nat)
    requires Inv(su, w, hist, n) && Grantable(su, hist, n, g) && OnPageOf(su, hist, v, pa)
    ensures LoadB(NewPageSpec(su, w, hist, n, g).m, pa) == LoadB(w.m, pa)
  {
    hide NewPageSpec, LoadB, Built, Untouched, After, Legal, SetupOk, TableEnd;
    InvParts(su, w, hist, n);
    NewPageKeepsInv(su, w, hist, n, g);
    var k :| 0 < k <= |hist| <= PAGE_COUNT && hist[k - 1].vm == v && pa / 0x1000 == PoolPage(su, k);
    PoolHas(su, k);
    PoolIsNoTable(su, g.vm);
    LoadBFrame(w.m, NewPageSpec(su, w, hist, n, g).m, su.guests[g.vm].ptBase, TableEnd(su, g.vm), pa);
  }

  lemma PoolIsNoTable(su: Setup, u: nat)
    requires SetupOk(su) && u < |su.guests|
    ensures su.guests[u].ptBase % 4 == 0 && TableEnd(su, u) % 4 == 0
    ensures PoolEnd(su) <= su.guests[u].ptBase || TableEnd(su, u) <= su.memBase
  {
    assert GuestOk(su, u);
    FourAligned(su.guests[u].ptBase, 5 + su.limit);
  }

  lemma StillOnPage(su: Setup, hist: seq<Grant>, g: Grant, v: nat, pa: nat)
    requires OnPageOf(su, hist, v, pa) && |hist| < PAGE_COUNT
    ensures OnPageOf(su, hist + [g], v, pa)
  {
    var k :| 0 < k <= |hist| <= PAGE_COUNT && hist[k - 1].vm == v && pa / 0x1000 == PoolPage(su, k);
    assert (hist + [g])[k - 1].vm == v;
  }

  lemma StepKeepsPage(su: Setup, w: World, hist: seq<Grant>, n: nat, a: Access, v: nat, pa: nat)
    requires Inv(su, w, hist, n) && PoolClear(su) && Possible(su, w, hist, n, a)
    requires OnPageOf(su, hist, v, pa) && (a.vm != v || a.store == None)
    ensures var s := StepAccess(su, w, hist, n, a);
      LoadB(s.0.m, pa) == LoadB(w.m, pa) && OnPageOf(su, s.1, v, pa)
  {
    hide Inv, PoolClear, OnPageOf, LoadB, StoreVia, Faulting, NewPageSpec, Room;
    SetUpSize(su, w, hist, n);
    var w1, h1 := w, hist;
    if Faulting(su, w, a) {
      var g := FaultGrant(a.vm, a.x);
      NewPageKeepsInv(su, w, hist, n, g);
      GrantMisses(su, w, hist, n, g, v, pa);
      StillOnPage(su, hist, g, v, pa);
      w1, h1 := NewPageSpec(su, w, hist, n, g), hist + [g];
    }
    if a.store.Some? {
      OthersMiss(su, w1, h1, n, v, a.vm, a.x, a.store.value, pa);
    }
  }

  // A byte of a page allocated to guest v changes only by guest v's stores.
  lemma {:induction false} PoolMemoryIsPrivate(su: Setup, w: World, hist: seq<Grant>, n: nat, run: seq<Access>,
                                               v: nat, pa: nat)
    requires Inv(su, w, hist, n) && PoolClear(su) && OnPageOf(su, hist, v, pa)
    requires forall k :: 0 <= k < |run| ==> run[k].vm != v || run[k].store == None
    ensures match RunAccesses(su, w, hist, n, run)
      case None => true
      case Some(s) => LoadB(s.0.m, pa) == LoadB(w.m, pa) && OnPageOf(su, s.1, v, pa)
  {
    hide Inv, PoolClear, OnPageOf, LoadB, Possible, StepAccess;
    if run != [] && RunAccesses(su, w, hist, n, run).Some? {
      PoolMemoryIsPrivate(su, w, hist, n, Init(run), v, pa);
      var s := RunAccesses(su, w, hist, n, Init(run)).value;
      assert Last(run) == run[|run| - 1];
      StepKeepsPage(su, s.0, s.1, n, Last(run), v, pa);
    }
  }
}
