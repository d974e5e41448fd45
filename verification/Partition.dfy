/** What the invariant says about splits: partition, pigeonhole, conservation. */
module Partition {
  import opened Tables
  import opened Sums
  import opened Records
  import opened IssueSpec
  import opened Invariants

  // ---- Cardinalities ----

  function Image(ds: set<Id>, f: map<Id, Id>): set<Id>
    requires ds <= f.Keys
  {
    set d | d in ds :: f[d]
  }

  ghost predicate Injective(ds: set<Id>, f: map<Id, Id>)
    requires ds <= f.Keys
  {
    forall d, e :: d in ds && e in ds && f[d] == f[e] ==> d == e
  }

  /** An image is as large as its domain exactly when nothing is hit twice. */
  lemma {:induction false} ImageSize(ds: set<Id>, f: map<Id, Id>)
    requires ds <= f.Keys
    ensures |Image(ds, f)| <= |ds|
    ensures |Image(ds, f)| == |ds| <==> Injective(ds, f)
  {
    if ds != {} {
      var d :| d in ds;
      var rest := ds - {d};
      ImageSize(rest, f);
      if f[d] in Image(rest, f) {
        assert Image(ds, f) == Image(rest, f);
        var e :| e in rest && f[e] == f[d];
        assert !Injective(ds, f);
      } else {
        assert Image(ds, f) == Image(rest, f) + {f[d]};
        assert forall e :: e in rest ==> f[e] in Image(rest, f);
      }
    }
  }

  lemma SubsetSize(a: set<Id>, b: set<Id>)
    requires a <= b
    ensures |a| <= |b|
    ensures |a| == |b| <==> a == b
  {
    assert b == a + (b - a);
  }

  // ---- Destinations, blocks, child groups ----

  ghost function SplitDestinations(s: Store, t: Id): set<Id> {
    set d | d in DestinationsOf(s.dests, t) && s.dests.rows[d].isSplit
  }

  ghost function UnsplitDestinations(s: Store, t: Id): set<Id> {
    set d | d in DestinationsOf(s.dests, t) && !s.dests.rows[d].isSplit
  }

  /** Flagged for a group that was deleted directly. */
  ghost function OrphanedDestinations(s: Store, t: Id): set<Id> {
    set d | d in SplitDestinations(s, t) && s.dests.rows[d].splitGroup !in s.groups.rows
  }

  ghost function ChildGroups(s: Store, t: Id): set<Id> {
    set g | g in s.groups.rows && s.groups.rows[g].transfer == t
  }

  ghost function SplitRecords(s: Store, t: Id): set<Id> {
    set p | p in s.splits.rows && s.splits.rows[p].transfer == t
  }

  ghost function OwnerOf(s: Store, t: Id): map<Id, Id> {
    map d | d in DestinationsOf(s.dests, t) :: s.dests.rows[d].splitGroup
  }

  lemma ChildrenAreBlocks(s: Store, t: Id)
    requires BlocksLinked(s.dests, s.groups) && s.groups.Valid() && t != 0
    ensures ChildGroups(s, t) <= Blocks(s.dests, t)
    ensures NoneDangling(s) ==> ChildGroups(s, t) == Blocks(s.dests, t)
  {
    forall g | g in ChildGroups(s, t)
      ensures g in Blocks(s.dests, t)
    {
      var d :| d in Block(s.dests, t, g);
      assert d in DestinationsOf(s.dests, t) && s.dests.rows[d].splitGroup == g;
    }
  }

  lemma RecordsMatchChildren(s: Store, t: Id)
    requires SplitsLinked(s.splits, s.groups, s.transfers) && t != 0
    ensures |SplitRecords(s, t)| == |ChildGroups(s, t)|
  {
    var f := map g | g in ChildGroups(s, t) :: s.groups.rows[g].split;
    assert Injective(ChildGroups(s, t), f) by {
      forall g, h | g in ChildGroups(s, t) && h in ChildGroups(s, t) && f[g] == f[h]
        ensures g == h
      {
        assert s.splits.rows[s.groups.rows[g].split].group == g;
        assert s.splits.rows[s.groups.rows[h].split].group == h;
      }
    }
    ImageSize(ChildGroups(s, t), f);
    assert Image(ChildGroups(s, t), f) == SplitRecords(s, t) by {
      forall p | p in SplitRecords(s, t)
        ensures p in Image(ChildGroups(s, t), f)
      {
        assert s.splits.rows[p].group in ChildGroups(s, t);
      }
    }
  }

  /** The live child groups partition the split destinations into non-empty blocks,
      one split record each, and num_split counts them. */
  lemma BlocksPartition(s: Store, t: Id)
    requires Inv(s) && NoneDangling(s) && t in s.transfers.rows
    ensures s.transfers.rows[t].numSplit == |ChildGroups(s, t)| == |SplitRecords(s, t)|
    ensures forall g :: g in ChildGroups(s, t) ==>
      && Block(s.dests, t, g) != {} && Block(s.dests, t, g) <= SplitDestinations(s, t)
      && s.groups.rows[g].split in SplitRecords(s, t)
      && s.splits.rows[s.groups.rows[g].split].group == g
    ensures forall g, h :: g in ChildGroups(s, t) && h in ChildGroups(s, t) && g != h ==>
      Block(s.dests, t, g) !! Block(s.dests, t, h)
    ensures forall d :: d in SplitDestinations(s, t) ==>
      s.dests.rows[d].splitGroup in ChildGroups(s, t) && d in Block(s.dests, t, s.dests.rows[d].splitGroup)
  {
    assert OnTrack(s.dcs, s.transfers, s.dests, t);
    ChildrenAreBlocks(s, t);
    RecordsMatchChildren(s, t);
  }

  /** num_split counts the live child groups exactly when no destination was orphaned. */
  lemma NumSplitCountsChildren(s: Store, t: Id)
    requires Inv(s) && t in s.transfers.rows
    ensures s.transfers.rows[t].numSplit == |ChildGroups(s, t)| <==> OrphanedDestinations(s, t) == {}
  {
    assert OnTrack(s.dcs, s.transfers, s.dests, t);
    ChildrenAreBlocks(s, t);
    SubsetSize(ChildGroups(s, t), Blocks(s.dests, t));
    OrphansHaveBlocks(s, t);
  }

  lemma OrphansHaveBlocks(s: Store, t: Id)
    requires BlocksLinked(s.dests, s.groups) && ChildGroups(s, t) <= Blocks(s.dests, t)
    ensures ChildGroups(s, t) == Blocks(s.dests, t) <==> OrphanedDestinations(s, t) == {}
  {
    if OrphanedDestinations(s, t) != {} {
      var d :| d in OrphanedDestinations(s, t);
      assert s.dests.rows[d].splitGroup in Blocks(s.dests, t);
    } else {
      forall g | g in Blocks(s.dests, t)
        ensures g in ChildGroups(s, t)
      {
        var d :| d in DestinationsOf(s.dests, t) && s.dests.rows[d].isSplit && s.dests.rows[d].splitGroup == g;
        assert d !in OrphanedDestinations(s, t);
      }
    }
  }

  // ---- Status ----

  lemma BlocksAsImage(s: Store, t: Id)
    ensures SplitDestinations(s, t) <= OwnerOf(s, t).Keys == DestinationsOf(s.dests, t)
    ensures Image(SplitDestinations(s, t), OwnerOf(s, t)) == Blocks(s.dests, t)
  {
    var ds, owner := SplitDestinations(s, t), OwnerOf(s, t);
    assert forall d :: d in ds ==> owner[d] == s.dests.rows[d].splitGroup;
    forall g | g in Blocks(s.dests, t)
      ensures g in Image(ds, owner)
    {
      var d :| d in DestinationsOf(s.dests, t) && s.dests.rows[d].isSplit && s.dests.rows[d].splitGroup == g;
      assert d in ds && owner[d] == g;
    }
  }

  ghost predicate Singletons(dests: Table<Destination>, t: Id) {
    forall g :: g in Blocks(dests, t) ==> |Block(dests, t, g)| == 1
  }

  lemma SingletonsAreInjective(s: Store, t: Id)
    requires BlocksLinked(s.dests, s.groups) && SplitDestinations(s, t) <= OwnerOf(s, t).Keys
    ensures Injective(SplitDestinations(s, t), OwnerOf(s, t)) <==> Singletons(s.dests, t)
  {
    var owner := OwnerOf(s, t);
    if Injective(SplitDestinations(s, t), owner) {
      forall g | g in Blocks(s.dests, t)
        ensures |Block(s.dests, t, g)| == 1
      {
        var d :| d in DestinationsOf(s.dests, t) && s.dests.rows[d].isSplit && s.dests.rows[d].splitGroup == g;
        forall e | e in Block(s.dests, t, g)
          ensures e == d
        {
          assert e in SplitDestinations(s, t) && d in SplitDestinations(s, t) && owner[d] == owner[e];
        }
        assert Block(s.dests, t, g) == {d};
      }
    }
    if Singletons(s.dests, t) {
      forall d, e | d in SplitDestinations(s, t) && e in SplitDestinations(s, t) && owner[d] == owner[e]
        ensures d == e
      {
        var b := Block(s.dests, t, owner[d]);
        assert owner[d] in Blocks(s.dests, t) && d in b && e in b;
        SubsetSize({d, e}, b);
      }
    }
  }

  lemma Counting(s: Store, t: Id)
    requires BlocksLinked(s.dests, s.groups)
    ensures |Blocks(s.dests, t)| <= |SplitDestinations(s, t)| <= |DestinationsOf(s.dests, t)|
    ensures |Blocks(s.dests, t)| == |SplitDestinations(s, t)| <==> Singletons(s.dests, t)
    ensures |SplitDestinations(s, t)| == |DestinationsOf(s.dests, t)| <==> UnsplitDestinations(s, t) == {}
    ensures |Blocks(s.dests, t)| == 0 <==> SplitDestinations(s, t) == {}
  {
    BlocksAsImage(s, t);
    ImageSize(SplitDestinations(s, t), OwnerOf(s, t));
    SingletonsAreInjective(s, t);
    SubsetSize(SplitDestinations(s, t), DestinationsOf(s.dests, t));
    assert DestinationsOf(s.dests, t) == SplitDestinations(s, t) + UnsplitDestinations(s, t);
    EmptyBlocks(s, t);
  }

  /** num_split lies between the live split records and the destinations, in every run. */
  lemma NumSplitBounds(s: Store, t: Id)
    requires Inv(s) && t in s.transfers.rows
    ensures |SplitRecords(s, t)| <= s.transfers.rows[t].numSplit <= s.transfers.rows[t].numDestinations
  {
    assert OnTrack(s.dcs, s.transfers, s.dests, t);
    ChildrenAreBlocks(s, t);
    RecordsMatchChildren(s, t);
    SubsetSize(ChildGroups(s, t), Blocks(s.dests, t));
    Counting(s, t);
  }

  /** An issued-or-later transfer DC reads "split" exactly when every destination is split
      and every block is a single destination; "issued" exactly when nothing is split. */
  lemma StatusExactly(s: Store, t: Id)
    requires Inv(s) && t in s.transfers.rows && s.dcs.rows[s.transfers.rows[t].dc].status != Draft
    ensures var status := s.dcs.rows[s.transfers.rows[t].dc].status; var meta := s.transfers.rows[t];
      && (status == Issued <==> meta.numSplit == 0)
      && (status == Issued <==> SplitDestinations(s, t) == {})
      && (status == Split <==> meta.numSplit == meta.numDestinations)
      && (status == Split <==> UnsplitDestinations(s, t) == {} && Singletons(s.dests, t))
      && (status == Splitting <==> status != Issued && status != Split)
  {
    assert OnTrack(s.dcs, s.transfers, s.dests, t);
    StatusFromCounts(s, t);
  }

  lemma StatusFromCounts(s: Store, t: Id)
    requires BlocksLinked(s.dests, s.groups) && t in s.transfers.rows && s.transfers.rows[t].dc in s.dcs.rows
    requires OnTrack(s.dcs, s.transfers, s.dests, t) && s.dcs.rows[s.transfers.rows[t].dc].status != Draft
    ensures var status := s.dcs.rows[s.transfers.rows[t].dc].status; var meta := s.transfers.rows[t];
      && (status == Issued <==> meta.numSplit == 0)
      && (status == Issued <==> SplitDestinations(s, t) == {})
      && (status == Split <==> meta.numSplit == meta.numDestinations)
      && (status == Split <==> UnsplitDestinations(s, t) == {} && Singletons(s.dests, t))
      && (status == Splitting <==> status != Issued && status != Split)
  {
    Counting(s, t);
  }

  lemma EmptyBlocks(s: Store, t: Id)
    ensures SplitDestinations(s, t) == {} <==> |Blocks(s.dests, t)| == 0
  {
    if SplitDestinations(s, t) == {} {
      assert forall d :: d in DestinationsOf(s.dests, t) && s.dests.rows[d].isSplit ==> d in SplitDestinations(s, t);
      assert Blocks(s.dests, t) == {};
    } else {
      var d :| d in SplitDestinations(s, t);
      assert s.dests.rows[d].splitGroup in Blocks(s.dests, t);
    }
  }

  /** A child group of two or more destinations keeps the transfer DC at "splitting":
      everything may be split without the status ever reading "split". */
  lemma LargeBlockMeansSplitting(s: Store, t: Id, g: Id)
    requires Inv(s) && t in s.transfers.rows && g in ChildGroups(s, t) && |Block(s.dests, t, g)| >= 2
    ensures s.dcs.rows[s.transfers.rows[t].dc].status == Splitting
  {
    assert OnTrack(s.dcs, s.transfers, s.dests, t);
    ChildrenAreBlocks(s, t);
    assert g in Blocks(s.dests, t);
    SubsetSize({g}, Blocks(s.dests, t));
    StatusFromCounts(s, t);
  }

  ghost function IssuedChildren(s: Store, t: Id): set<Id> {
    set g | g in ChildGroups(s, t) && s.groups.rows[g].status == Issued
  }

  /** The issued child groups never outnumber num_split. */
  lemma IssuedWithinNumSplit(s: Store, t: Id)
    requires Inv(s) && t in s.transfers.rows
    ensures |IssuedChildren(s, t)| <= s.transfers.rows[t].numSplit
  {
    assert OnTrack(s.dcs, s.transfers, s.dests, t);
    ChildrenAreBlocks(s, t);
    SubsetSize(IssuedChildren(s, t), Blocks(s.dests, t));
  }

  // ---- Conservation ----

  /** What the live child groups of a transfer carry of one item. */
  ghost function CarriedBy(s: Store, key: SourceKey, m: Measure): Id -> real {
    (g: Id) => GroupTotal(s.dcs, s.lines, g, Transit, key, m)
  }

  ghost function Owner(dests: Table<Destination>): Id -> Id {
    (d: Id) => if d in dests.rows then dests.rows[d].splitGroup else 0
  }

  /** Split for a group that is still there. */
  ghost function LiveDestinations(s: Store, t: Id): set<Id> {
    set d | d in SplitDestinations(s, t) && s.dests.rows[d].splitGroup in s.groups.rows
  }

  /** Scaling each share is scaling their sum. */
  lemma {:induction false} SumScaled(gs: set<Id>, f: Id -> real, h: Id -> real, line: Line, m: Measure)
    requires forall g :: g in gs ==> h(g) == Scaled(line, m, f(g))
    ensures Sum(gs, h) == Scaled(line, m, Sum(gs, f))
  {
    if gs == {} {
      ScaledZero(line, m);
    } else {
      var g :| g in gs;
      var rest := gs - {g};
      SumScaled(rest, f, h, line, m);
      SumPick(gs, f, g);
      SumPick(gs, h, g);
      ScaledAdds(line, m, f(g), Sum(rest, f));
    }
  }

  lemma CarriedByOne(s: Store, t: Id, l: Id, m: Measure, g: Id)
    requires ChildrenCarry(s) && t in s.transfers.rows && l in LinesOf(s.lines, s.transfers.rows[t].dc) && g in ChildGroups(s, t)
    ensures var line := s.lines.rows[l];
      CarriedBy(s, line.key, m)(g)
      == Scaled(line, m, FiberSum(DestinationsOf(s.dests, t), Owner(s.dests), PlannedAt(s.plans, line.key))(g))
  {
    assert Fiber(DestinationsOf(s.dests, t), Owner(s.dests), g) == Block(s.dests, t, g);
    assert ChildCarries(s, g, l);
  }

  lemma CarriedSum(s: Store, t: Id, l: Id, m: Measure)
    requires ChildrenCarry(s) && BlocksLinked(s.dests, s.groups) && s.groups.Valid()
    requires t in s.transfers.rows && l in LinesOf(s.lines, s.transfers.rows[t].dc)
    ensures var line := s.lines.rows[l];
      Sum(ChildGroups(s, t), CarriedBy(s, line.key, m)) == Scaled(line, m, PlannedFor(s.plans, LiveDestinations(s, t), line.key))
  {
    var line := s.lines.rows[l];
    var ds, owner, f := DestinationsOf(s.dests, t), Owner(s.dests), PlannedAt(s.plans, line.key);
    forall g | g in ChildGroups(s, t)
      ensures CarriedBy(s, line.key, m)(g) == Scaled(line, m, FiberSum(ds, owner, f)(g))
    {
      CarriedByOne(s, t, l, m, g);
    }
    SumScaled(ChildGroups(s, t), FiberSum(ds, owner, f), CarriedBy(s, line.key, m), line, m);
    SumFibers(ChildGroups(s, t), ds, owner, f);
    LiveByOwner(s, t);
  }

  lemma LiveByOwner(s: Store, t: Id)
    requires BlocksLinked(s.dests, s.groups) && s.groups.Valid()
    ensures (set d | d in DestinationsOf(s.dests, t) && Owner(s.dests)(d) in ChildGroups(s, t)) == LiveDestinations(s, t)
  {
  }

  /** In every run, each amount on a parent line is the sum over the live child transit lines of that item,
      plus the same rate and tax on what is planned for unsplit destinations and for orphaned ones. */
  lemma Conservation(s: Store, t: Id, l: Id, m: Measure)
    requires Inv(s) && t in s.transfers.rows && l in LinesOf(s.lines, s.transfers.rows[t].dc)
    ensures var line := s.lines.rows[l];
      Amount(line, m) == Sum(ChildGroups(s, t), CarriedBy(s, line.key, m))
        + Scaled(line, m, PlannedFor(s.plans, UnsplitDestinations(s, t), line.key))
        + Scaled(line, m, PlannedFor(s.plans, OrphanedDestinations(s, t), line.key))
  {
    var line, all := s.lines.rows[l], DestinationsOf(s.dests, t);
    CarriedSum(s, t, l, m);
    assert ParentLinesOk(s.lines, s.plans, s.transfers.rows[t].dc, all);
    assert CarriesPlan(line, s.plans, all);
    ThreeWays(s, t, line, m);
  }

  lemma ThreeWays(s: Store, t: Id, line: Line, m: Measure)
    ensures Scaled(line, m, PlannedFor(s.plans, DestinationsOf(s.dests, t), line.key))
            == Scaled(line, m, PlannedFor(s.plans, LiveDestinations(s, t), line.key))
               + Scaled(line, m, PlannedFor(s.plans, UnsplitDestinations(s, t), line.key))
               + Scaled(line, m, PlannedFor(s.plans, OrphanedDestinations(s, t), line.key))
  {
    var live, open, lost := LiveDestinations(s, t), UnsplitDestinations(s, t), OrphanedDestinations(s, t);
    assert DestinationsOf(s.dests, t) == (live + open) + lost;
    ScaledUnion(s.plans, live + open, lost, line, m);
    ScaledUnion(s.plans, live, open, line, m);
  }

  lemma ScaledUnion(plans: Table<Plan>, a: set<Id>, b: set<Id>, line: Line, m: Measure)
    requires a !! b
    ensures Scaled(line, m, PlannedFor(plans, a + b, line.key))
            == Scaled(line, m, PlannedFor(plans, a, line.key)) + Scaled(line, m, PlannedFor(plans, b, line.key))
  {
    var f := PlannedAt(plans, line.key);
    SumUnion(a, b, f);
    ScaledAdds(line, m, Sum(a, f), Sum(b, f));
  }

  lemma ScaledAdds(l: Line, m: Measure, p: real, q: real)
    ensures Scaled(l, m, p + q) == Scaled(l, m, p) + Scaled(l, m, q)
  {
    var r, x := l.rate, l.taxPercent;
    assert r * (p + q) == r * p + r * q;
    assert r * (p + q) * x == r * p * x + r * q * x;
  }

  lemma ScaledZero(l: Line, m: Measure)
    ensures Scaled(l, m, 0.0) == 0.0
  {
  }

  /** Once everything is split and nothing was deleted directly, the children add up to the parent. */
  lemma ChildrenAddUp(s: Store, t: Id, l: Id, m: Measure)
    requires Inv(s) && NoneDangling(s) && t in s.transfers.rows && l in LinesOf(s.lines, s.transfers.rows[t].dc)
    requires UnsplitDestinations(s, t) == {}
    ensures Amount(s.lines.rows[l], m) == Sum(ChildGroups(s, t), CarriedBy(s, s.lines.rows[l].key, m))
  {
    hide Inv, NoneDangling, Amount, Scaled, PlannedFor, CarriedBy, ChildGroups, UnsplitDestinations, OrphanedDestinations, Sum;
    NoOrphans(s, t);
    Conservation(s, t, l, m);
    NothingPlanned(s.plans, s.lines.rows[l], m);
  }

  lemma NoOrphans(s: Store, t: Id)
    requires NoneDangling(s)
    ensures OrphanedDestinations(s, t) == {}
  {
  }

  lemma NothingPlanned(plans: Table<Plan>, line: Line, m: Measure)
    ensures Scaled(line, m, PlannedFor(plans, {}, line.key)) == 0.0
  {
    ScaledZero(line, m);
  }

  // ---- Groups and their members ----

  /** A group is draft exactly when all its DCs are, and issued exactly when all its DCs are. */
  lemma GroupAndMembersAgree(s: Store, g: Id)
    requires Inv(s) && g in s.groups.rows
    ensures Members(s.dcs, g) != {}
    ensures s.groups.rows[g].status == Draft <==> forall d :: d in Members(s.dcs, g) ==> s.dcs.rows[d].status == Draft
    ensures s.groups.rows[g].status == Issued <==> forall d :: d in Members(s.dcs, g) ==> s.dcs.rows[d].status == Issued
  {
    assert TransitMembers(s.dcs, g) != {};
    var d :| d in TransitMembers(s.dcs, g);
    assert d in Members(s.dcs, g);
  }
}
