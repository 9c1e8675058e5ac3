// A stage-2 table with its bits decoded: one entry per 2 MiB region, and the level-3 tables
// as one sequence of leaves, 512 to a table.  What page and block mappings do to the
// translation is proved here; module PageTable shows that the C code performs these updates.
module TableModel {
  import opened Options
  import opened Walker

  datatype Entry = Hole | Block(frame: nat) | Table(index: int)

  // `count` is pagetable_ld's page_count: the number of level-3 tables handed out.
  datatype Tab = Tab(regions: seq<Entry>, leaves: seq<Option<nat>>, count: nat)

  const REGIONS: nat := 0x800

  // Every linked level-3 table has been handed out, and none hangs off two regions.
  ghost predicate Valid(v: Tab) {
    && |v.regions| == REGIONS
    && 0x200 * v.count <= |v.leaves|
    && (forall r :: 0 <= r < REGIONS && v.regions[r].Table? ==> 0 <= v.regions[r].index < v.count)
    && (forall r, r' :: 0 <= r < r' < REGIONS && v.regions[r].Table? && v.regions[r'].Table? ==>
          v.regions[r].index != v.regions[r'].index)
  }

  function Lookup(v: Tab, p: nat): Option<nat>
    requires Valid(v) && p < PAGES
  {
    match v.regions[p / 0x200]
    case Hole => None
    case Block(f) => Some(f * 0x200 + p % 0x200)
    case Table(k) => v.leaves[0x200 * k + p % 0x200]
  }

  // A page mapping needs a level-3 table: one is there, or one is left.
  predicate HasL3(v: Tab, p: nat)
    requires p < 0x200 * |v.regions|
  {
    v.regions[p / 0x200].Table? || 0x200 * v.count < |v.leaves|
  }

  function Link(v: Tab, r: nat): Tab
    requires r < |v.regions|
  {
    v.(regions := v.regions[r := Table(v.count)], count := v.count + 1)
  }

  function Fill(v: Tab, p: nat, q: nat): Tab
    requires Valid(v) && p < PAGES && v.regions[p / 0x200].Table?
  {
    v.(leaves := v.leaves[0x200 * v.regions[p / 0x200].index + p % 0x200 := Some(q)])
  }

  function SetPage(v: Tab, p: nat, q: nat): Tab
    requires Valid(v) && p < PAGES && HasL3(v, p)
    requires |v.leaves| % 0x200 == 0
  {
    if v.regions[p / 0x200].Table? then Fill(v, p, q)
    else
      LinkKeepsValid(v, p / 0x200);
      Fill(Link(v, p / 0x200), p, q)
  }

  function SetBlock(v: Tab, p: nat, q: nat): Tab
    requires Valid(v) && p < PAGES
  {
    v.(regions := v.regions[p / 0x200 := Block(q / 0x200)])
  }

  lemma LinkKeepsValid(v: Tab, r: nat)
    requires Valid(v) && r < REGIONS && 0x200 * v.count < |v.leaves| && |v.leaves| % 0x200 == 0
    ensures Valid(Link(v, r))
  {
  }

  lemma SetPageKeepsValid(v: Tab, p: nat, q: nat)
    requires Valid(v) && p < PAGES && HasL3(v, p) && |v.leaves| % 0x200 == 0
    ensures Valid(SetPage(v, p, q)) && |SetPage(v, p, q).leaves| == |v.leaves|
    ensures forall r :: 0 <= r < REGIONS ==>
      SetPage(v, p, q).regions[r].Table? == (v.regions[r].Table? || r == p / 0x200)
  {
    if !v.regions[p / 0x200].Table? {
      LinkKeepsValid(v, p / 0x200);
    }
  }

  lemma SetBlockKeepsValid(v: Tab, p: nat, q: nat)
    requires Valid(v) && p < PAGES
    ensures Valid(SetBlock(v, p, q))
  {
  }

  lemma FillMeaning(v: Tab, p: nat, q: nat, x: nat)
    requires Valid(v) && p < PAGES && x < PAGES && v.regions[p / 0x200].Table?
    ensures Valid(Fill(v, p, q))
    ensures Lookup(Fill(v, p, q), x) == if x == p then Some(q) else Lookup(v, x)
  {
    var e := v.regions[x / 0x200];
    if e.Table? && x != p {
      var k, k' := v.regions[p / 0x200].index, e.index;
      assert k != k' || x % 0x200 != p % 0x200;
    }
  }

  // A page mapping maps its page.  If its region had no level-3 table, the rest of the region
  // becomes whatever the newly linked table holds; every other page keeps its translation.
  lemma SetPageMeaning(v: Tab, p: nat, q: nat, x: nat)
    requires Valid(v) && p < PAGES && x < PAGES && HasL3(v, p) && |v.leaves| % 0x200 == 0
    ensures Valid(SetPage(v, p, q))
    ensures Lookup(SetPage(v, p, q), x)
         == if x == p then Some(q)
            else if x / 0x200 == p / 0x200 && !v.regions[p / 0x200].Table?
            then v.leaves[0x200 * v.count + x % 0x200]
            else Lookup(v, x)
  {
    if v.regions[p / 0x200].Table? {
      FillMeaning(v, p, q, x);
    } else {
      LinkKeepsValid(v, p / 0x200);
      FillMeaning(Link(v, p / 0x200), p, q, x);
    }
  }

  // A block mapping replaces the translation of its 2 MiB region and of nothing else.
  lemma SetBlockMeaning(v: Tab, p: nat, q: nat, x: nat)
    requires Valid(v) && p < PAGES && x < PAGES
    ensures Valid(SetBlock(v, p, q))
    ensures Lookup(SetBlock(v, p, q), x)
         == if x / 0x200 == p / 0x200 then Some(q / 0x200 * 0x200 + x % 0x200) else Lookup(v, x)
  {
  }

  function EmptyTab(limit: nat): Tab {
    Tab(seq(REGIONS, _ => Hole), seq(0x200 * limit, _ => None), 0)
  }

  // The level-3 tables not handed out yet are empty.
  ghost predicate Clean(v: Tab) {
    forall i :: 0x200 * v.count <= i < |v.leaves| ==> v.leaves[i] == None
  }

  ghost function TableRegions(v: Tab): set<nat> {
    set r | 0 <= r < |v.regions| && v.regions[r].Table?
  }

  // A table with room for `limit` level-3 tables whose unused ones are empty and whose used ones
  // all hang off a region.
  ghost predicate Tidy(v: Tab, limit: nat) {
    Valid(v) && |v.leaves| == 0x200 * limit && Clean(v) && v.count == |TableRegions(v)|
  }

  lemma TidyShape(v: Tab, limit: nat)
    requires Tidy(v, limit)
    ensures Valid(v) && |v.leaves| % 0x200 == 0 && |v.regions| == REGIONS
  {
  }

  // On such a table a page mapping outside the blocks maps its page and nothing else, as long as
  // its region has a level-3 table or one is left.
  lemma MapPageOn(v: Tab, limit: nat, p: nat, q: nat)
    requires Tidy(v, limit) && p < PAGES && !v.regions[p / 0x200].Block?
    requires |TableRegions(v) + {p / 0x200}| <= limit
    ensures HasL3(v, p)
    ensures var w := SetPage(v, p, q);
      && Tidy(w, limit)
      && (forall x :: 0 <= x < PAGES ==> Lookup(w, x) == if x == p then Some(q) else Lookup(v, x))
      && (forall r :: 0 <= r < REGIONS ==> w.regions[r].Block? == v.regions[r].Block?)
      && TableRegions(w) == TableRegions(v) + {p / 0x200}
  {
    var r := p / 0x200;
    RoomForPage(v, limit, p);
    TidyPage(v, limit, p, q);
    forall x | 0 <= x < PAGES
      ensures Lookup(SetPage(v, p, q), x) == if x == p then Some(q) else Lookup(v, x)
    {
      SetPageMeaning(v, p, q, x);
      if x / 0x200 == r && v.regions[r].Hole? {
        EmptyLeaf(v, limit, r, x);
      }
    }
  }

  lemma EmptyLeaf(v: Tab, limit: nat, r: nat, x: nat)
    requires Tidy(v, limit) && v.count < limit && r < REGIONS && x < PAGES && x / 0x200 == r && v.regions[r].Hole?
    ensures 0x200 * v.count + x % 0x200 < |v.leaves|
    ensures v.leaves[0x200 * v.count + x % 0x200] == None == Lookup(v, x)
  {
  }

  lemma RoomForPage(v: Tab, limit: nat, p: nat)
    requires Tidy(v, limit) && p < PAGES && |TableRegions(v) + {p / 0x200}| <= limit
    ensures HasL3(v, p) && (!v.regions[p / 0x200].Table? ==> v.count < limit)
  {
    if !v.regions[p / 0x200].Table? {
      assert p / 0x200 !in TableRegions(v);
    }
  }

  lemma TidyPage(v: Tab, limit: nat, p: nat, q: nat)
    requires Tidy(v, limit) && p < PAGES && HasL3(v, p)
    ensures var w := SetPage(v, p, q);
      && Tidy(w, limit) && TableRegions(w) == TableRegions(v) + {p / 0x200}
      && (forall r :: 0 <= r < REGIONS && r != p / 0x200 ==> w.regions[r] == v.regions[r])
      && w.regions[p / 0x200].Table?
  {
    SetPageKeepsValid(v, p, q);
    PageRegions(v, p, q);
  }

  // A page mapping makes its region a table region, and counts it if it was none.
  lemma PageRegions(v: Tab, p: nat, q: nat)
    requires Valid(v) && |v.leaves| % 0x200 == 0 && p < PAGES && HasL3(v, p)
    ensures TableRegions(SetPage(v, p, q)) == TableRegions(v) + {p / 0x200}
    ensures v.count == |TableRegions(v)| ==> SetPage(v, p, q).count == |TableRegions(SetPage(v, p, q))|
  {
    var r, w := p / 0x200, SetPage(v, p, q);
    SetPageKeepsValid(v, p, q);
    assert TableRegions(w) == TableRegions(v) + {r};
    assert (r in TableRegions(v)) == v.regions[r].Table?;
  }

  // A block mapping of a region without a level-3 table maps its region and nothing else.
  lemma MapBlockOn(v: Tab, limit: nat, p: nat, q: nat)
    requires Tidy(v, limit) && p < PAGES && !v.regions[p / 0x200].Table?
    ensures var w := SetBlock(v, p, q);
      && Tidy(w, limit) && TableRegions(w) == TableRegions(v)
      && (forall r :: 0 <= r < REGIONS ==> w.regions[r].Block? == (v.regions[r].Block? || r == p / 0x200))
      && (forall x :: 0 <= x < PAGES ==>
            Lookup(w, x) == if x / 0x200 == p / 0x200 then Some(q / 0x200 * 0x200 + x % 0x200) else Lookup(v, x))
  {
    SetBlockKeepsValid(v, p, q);
    assert TableRegions(SetBlock(v, p, q)) == TableRegions(v);
  }

  lemma EmptyIsTidy(limit: nat)
    ensures Tidy(EmptyTab(limit), limit) && TableRegions(EmptyTab(limit)) == {}
  {
    assert TableRegions(EmptyTab(limit)) == {};
  }

  // ---------------------------------------------------------------------------------------
  // Runs of mappings from an empty table
  // ---------------------------------------------------------------------------------------

  datatype MapOp = MapPage(p: nat, q: nat) | MapBlock(p: nat, q: nat)

  predicate InRange(ops: seq<MapOp>) {
    forall i :: 0 <= i < |ops| ==> ops[i].p < PAGES && ops[i].q < PAGES
  }

  function Init<T>(s: seq<T>): seq<T>
    requires |s| > 0
  {
    s[..|s| - 1]
  }

  function Last<T>(s: seq<T>): T
    requires |s| > 0
  {
    s[|s| - 1]
  }

  // The last mapping into region r was a page mapping.
  predicate PageWise(ops: seq<MapOp>, r: nat) {
    if ops == [] then false
    else if Last(ops).p / 0x200 == r then Last(ops).MapPage?
    else PageWise(Init(ops), r)
  }

  // The level-3 tables a run consumes: one each time a page is mapped into a region that is
  // not mapped page by page at that moment.
  function TablesNeeded(ops: seq<MapOp>): nat {
    if ops == [] then 0
    else
      var links := Last(ops).MapPage? && !PageWise(Init(ops), Last(ops).p / 0x200);
      TablesNeeded(Init(ops)) + (if links then 1 else 0)
  }

  // The translation a run of mappings asks for, without any table: the last mapping of the
  // page counts, except that mapping a page in a 2 MiB block gives up the rest of the block.
  function Meaning(ops: seq<MapOp>, x: nat): Option<nat> {
    if ops == [] then None
    else match Last(ops)
    case MapBlock(p, q) =>
      if x / 0x200 == p / 0x200 then Some(q / 0x200 * 0x200 + x % 0x200) else Meaning(Init(ops), x)
    case MapPage(p, q) =>
      if x == p then Some(q)
      else if x / 0x200 == p / 0x200 && !PageWise(Init(ops), p / 0x200) then None
      else Meaning(Init(ops), x)
  }

  function Apply(v: Tab, op: MapOp): Tab
    requires Valid(v) && |v.leaves| % 0x200 == 0 && op.p < PAGES
    requires op.MapPage? ==> HasL3(v, op.p)
  {
    match op
    case MapPage(p, q) => SetPage(v, p, q)
    case MapBlock(p, q) => SetBlock(v, p, q)
  }

  function RunFrom(limit: nat, ops: seq<MapOp>): (v: Tab)
    requires InRange(ops) && TablesNeeded(ops) <= limit
    ensures Valid(v) && |v.leaves| == 0x200 * limit && v.count == TablesNeeded(ops)
    ensures forall r :: 0 <= r < REGIONS ==> v.regions[r].Table? == PageWise(ops, r)
  {
    if ops == [] then EmptyTab(limit)
    else
      var v := RunFrom(limit, Init(ops));
      RunStep(v, Last(ops));
      Apply(v, Last(ops))
  }

  lemma RunStep(v: Tab, op: MapOp)
    requires Valid(v) && |v.leaves| % 0x200 == 0 && op.p < PAGES
    requires op.MapPage? ==> HasL3(v, op.p)
    ensures Valid(Apply(v, op)) && |Apply(v, op).leaves| == |v.leaves|
    ensures Apply(v, op).count == v.count + if op.MapPage? && !v.regions[op.p / 0x200].Table? then 1 else 0
    ensures forall r :: 0 <= r < REGIONS ==>
      Apply(v, op).regions[r].Table? == if r == op.p / 0x200 then op.MapPage? else v.regions[r].Table?
    ensures Clean(v) ==> Clean(Apply(v, op))
  {
    match op
    case MapPage(p, q) => SetPageKeepsValid(v, p, q);
    case MapBlock(p, q) => SetBlockKeepsValid(v, p, q);
  }

  lemma {:induction false} RunIsClean(limit: nat, ops: seq<MapOp>)
    requires InRange(ops) && TablesNeeded(ops) <= limit
    ensures Clean(RunFrom(limit, ops))
  {
    if ops != [] {
      RunIsClean(limit, Init(ops));
      RunStep(RunFrom(limit, Init(ops)), Last(ops));
    }
  }

  // Every run of page and block mappings that has enough level-3 tables translates every page
  // as its mappings ask for.
  lemma {:induction false} RunMeaning(limit: nat, ops: seq<MapOp>, x: nat)
    requires InRange(ops) && TablesNeeded(ops) <= limit && x < PAGES
    ensures Lookup(RunFrom(limit, ops), x) == Meaning(ops, x)
  {
    hide Lookup, SetPage, SetBlock, Valid;
    if ops == [] {
      EmptyMapsNothing(limit, x);
    } else {
      var v := RunFrom(limit, Init(ops));
      RunMeaning(limit, Init(ops), x);
      RunIsClean(limit, Init(ops));
      StepMeaning(v, Last(ops), x);
    }
  }

  lemma EmptyMapsNothing(limit: nat, x: nat)
    requires x < PAGES
    ensures Valid(EmptyTab(limit)) && Lookup(EmptyTab(limit), x) == None
  {
  }

  lemma StepMeaning(v: Tab, op: MapOp, x: nat)
    requires Valid(v) && Clean(v) && |v.leaves| % 0x200 == 0 && op.p < PAGES && x < PAGES
    requires op.MapPage? ==> HasL3(v, op.p)
    ensures Valid(Apply(v, op))
    ensures Lookup(Apply(v, op), x) == match op
      case MapBlock(p, q) =>
        if x / 0x200 == p / 0x200 then Some(q / 0x200 * 0x200 + x % 0x200) else Lookup(v, x)
      case MapPage(p, q) =>
        if x == p then Some(q)
        else if x / 0x200 == p / 0x200 && !v.regions[p / 0x200].Table? then None
        else Lookup(v, x)
  {
    match op
    case MapPage(p, q) => SetPageMeaning(v, p, q, x);
    case MapBlock(p, q) => SetBlockMeaning(v, p, q, x);
  }

  ghost predicate PagesOnly(ops: seq<MapOp>) {
    forall i :: 0 <= i < |ops| ==> ops[i].MapPage?
  }

  ghost function MappedRegions(ops: seq<MapOp>): set<nat> {
    set i | 0 <= i < |ops| :: ops[i].p / 0x200
  }

  lemma RegionsGrow(ops: seq<MapOp>)
    requires ops != []
    ensures MappedRegions(ops) == MappedRegions(Init(ops)) + {Last(ops).p / 0x200}
  {
    forall s | s in MappedRegions(ops)
      ensures s in MappedRegions(Init(ops)) + {Last(ops).p / 0x200}
    {
      var i :| 0 <= i < |ops| && ops[i].p / 0x200 == s;
      if i < |ops| - 1 {
        assert Init(ops)[i] == ops[i];
      }
    }
    forall s | s in MappedRegions(Init(ops))
      ensures s in MappedRegions(ops)
    {
      var i :| 0 <= i < |Init(ops)| && Init(ops)[i].p / 0x200 == s;
      assert ops[i].p / 0x200 == s;
    }
    assert ops[|ops| - 1].p / 0x200 in MappedRegions(ops);
  }

  // Without block mappings page_count is the number of distinct 2 MiB regions mapped, which
  // are the regions with a table descriptor.
  lemma {:induction false} PageRunCount(limit: nat, ops: seq<MapOp>)
    requires InRange(ops) && TablesNeeded(ops) <= limit && PagesOnly(ops)
    ensures TableRegions(RunFrom(limit, ops)) == MappedRegions(ops)
    ensures |MappedRegions(ops)| == RunFrom(limit, ops).count
  {
    hide SetPage, Valid, TableRegions, MappedRegions;
    if ops == [] {
      NoRegions(limit);
    } else {
      PageRunCount(limit, Init(ops));
      RegionsGrow(ops);
      assert Last(ops).MapPage?;
      PageRegions(RunFrom(limit, Init(ops)), Last(ops).p, Last(ops).q);
    }
  }

  lemma NoRegions(limit: nat)
    ensures TableRegions(EmptyTab(limit)) == {} == MappedRegions([])
  {
    EmptyIsTidy(limit);
  }
}
