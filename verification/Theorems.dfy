/** The main results, for every run of the protocol from the empty database. */
module Theorems {
  import opened Tables
  import opened Sums
  import opened Numbering
  import opened Records
  import opened SplitSpec
  import opened Invariants
  import opened Runs
  import opened Partition
  import opened Histories

  ghost predicate Legal(actions: seq<Action>) {
    forall a :: a in actions ==> Submitted(a)
  }

  function Reached(starts: Starts, actions: seq<Action>): Store {
    Run(Empty(starts), actions)
  }

  lemma ReachedInv(starts: Starts, actions: seq<Action>)
    requires Legal(actions)
    ensures Inv(Reached(starts, actions))
  {
    EmptyInv(starts);
    RunKeepsInv(Empty(starts), actions);
  }

  /** Every shipment group balances: what leaves on the transit DC arrives on the official DCs, item by item. */
  lemma GroupsBalance(starts: Starts, actions: seq<Action>, g: Id, key: SourceKey)
    requires Legal(actions) && g in Reached(starts, actions).groups.rows
    ensures var s := Reached(starts, actions);
      GroupTotal(s.dcs, s.lines, g, Transit, key, Quantity) == GroupTotal(s.dcs, s.lines, g, Official, key, Quantity)
  {
    ReachedInv(starts, actions);
    Balances(Reached(starts, actions), g, key);
  }

  lemma Balances(s: Store, g: Id, key: SourceKey)
    requires Balanced(s) && g in s.groups.rows
    ensures GroupTotal(s.dcs, s.lines, g, Transit, key, Quantity) == GroupTotal(s.dcs, s.lines, g, Official, key, Quantity)
  {
    assert GroupBalances(s.dcs, s.lines, g);
  }

  /** Each amount on a line of a transfer DC is always accounted for: on live child groups, unsplit or orphaned. */
  lemma AmountsAreConserved(starts: Starts, actions: seq<Action>, t: Id, l: Id, m: Measure)
    requires Legal(actions)
    requires var s := Reached(starts, actions); t in s.transfers.rows && l in LinesOf(s.lines, s.transfers.rows[t].dc)
    ensures var s := Reached(starts, actions); var line := s.lines.rows[l];
      Amount(line, m) == Sum(ChildGroups(s, t), CarriedBy(s, line.key, m))
        + Scaled(line, m, PlannedFor(s.plans, UnsplitDestinations(s, t), line.key))
        + Scaled(line, m, PlannedFor(s.plans, OrphanedDestinations(s, t), line.key))
  {
    ReachedInv(starts, actions);
    Conservation(Reached(starts, actions), t, l, m);
  }

  /** As long as no child group is deleted directly, the live child groups partition the split
      destinations into non-empty blocks, one split record each, and num_split counts them. */
  lemma ChildrenPartition(starts: Starts, actions: seq<Action>, t: Id)
    requires Legal(actions) && Orderly(Empty(starts), actions) && t in Reached(starts, actions).transfers.rows
    ensures var s := Reached(starts, actions);
      && s.transfers.rows[t].numSplit == |ChildGroups(s, t)| == |SplitRecords(s, t)|
      && (forall g :: g in ChildGroups(s, t) ==>
            Block(s.dests, t, g) != {} && Block(s.dests, t, g) <= SplitDestinations(s, t))
      && (forall g, h :: g in ChildGroups(s, t) && h in ChildGroups(s, t) && g != h ==> Block(s.dests, t, g) !! Block(s.dests, t, h))
      && (forall d :: d in SplitDestinations(s, t) ==> s.dests.rows[d].splitGroup in ChildGroups(s, t))
  {
    EmptyInv(starts);
    OrderlyExactly(Empty(starts), actions);
    ReachedInv(starts, actions);
    BlocksPartition(Reached(starts, actions), t);
  }

  /** After a run num_split counts the live child groups of every transfer DC exactly when
      no call in the run was an accepted direct deletion of a child group. */
  lemma PartitionExactly(starts: Starts, actions: seq<Action>)
    requires Legal(actions)
    ensures var s := Reached(starts, actions);
      (forall t :: t in s.transfers.rows ==> s.transfers.rows[t].numSplit == |ChildGroups(s, t)|) <==> Orderly(Empty(starts), actions)
  {
    EmptyInv(starts);
    OrderlyExactly(Empty(starts), actions);
    ReachedInv(starts, actions);
    AllCounted(Reached(starts, actions));
  }

  lemma AllCounted(s: Store)
    requires Inv(s)
    ensures (forall t :: t in s.transfers.rows ==> s.transfers.rows[t].numSplit == |ChildGroups(s, t)|) <==> NoneDangling(s)
  {
    forall t | t in s.transfers.rows
      ensures s.transfers.rows[t].numSplit == |ChildGroups(s, t)| <==> OrphanedDestinations(s, t) == {}
    {
      NumSplitCountsChildren(s, t);
    }
    OrphansByTransfer(s);
  }

  lemma OrphansByTransfer(s: Store)
    requires RowsLinked(s)
    ensures (forall t :: t in s.transfers.rows ==> OrphanedDestinations(s, t) == {}) <==> NoneDangling(s)
  {
    if !NoneDangling(s) {
      var d :| d in s.dests.rows && s.dests.rows[d].isSplit && s.dests.rows[d].splitGroup !in s.groups.rows;
      assert d in OrphanedDestinations(s, s.dests.rows[d].transfer);
    }
  }

  /** The status of a transfer DC past "draft", as a function of its destinations and of its counters. */
  lemma StatusTellsProgress(starts: Starts, actions: seq<Action>, t: Id)
    requires Legal(actions)
    requires var s := Reached(starts, actions);
      t in s.transfers.rows && s.transfers.rows[t].dc in s.dcs.rows && s.dcs.rows[s.transfers.rows[t].dc].status != Draft
    ensures var s := Reached(starts, actions); var meta := s.transfers.rows[t]; var status := s.dcs.rows[meta.dc].status;
      && status == ProgressStatus(meta.numSplit, meta.numDestinations)
      && |SplitRecords(s, t)| <= meta.numSplit <= meta.numDestinations == |DestinationsOf(s.dests, t)|
      && (status == Issued <==> SplitDestinations(s, t) == {})
      && (status == Split <==> UnsplitDestinations(s, t) == {} && Singletons(s.dests, t))
  {
    var s := Reached(starts, actions);
    ReachedInv(starts, actions);
    StatusExactly(s, t);
    NumSplitBounds(s, t);
    Tracked(s, t);
  }

  lemma Tracked(s: Store, t: Id)
    requires Inv(s) && t in s.transfers.rows && s.dcs.rows[s.transfers.rows[t].dc].status != Draft
    ensures var meta := s.transfers.rows[t];
      s.dcs.rows[meta.dc].status == ProgressStatus(meta.numSplit, meta.numDestinations)
      && meta.numDestinations == |DestinationsOf(s.dests, t)|
  {
    assert OnTrack(s.dcs, s.transfers, s.dests, t);
  }

  /** A run cut in two: what is issued in the first part stays issued, split and unreturned in the second. */
  lemma OnceIssued(starts: Starts, first: seq<Action>, rest: seq<Action>, g: Id)
    requires Legal(first) && Legal(rest)
    requires var s := Reached(starts, first); IsChild(s, g) && s.groups.rows[g].status == Issued
    ensures var s, r, t := Reached(starts, first), Reached(starts, first + rest), Reached(starts, first).groups.rows[g].transfer;
      && g in r.groups.rows && r.groups.rows[g].status == Issued
      && Block(s.dests, t, g) <= Block(r.dests, t, g) * SplitDestinations(r, t)
      && t in r.transfers.rows && r.transfers.rows[t].dc in r.dcs.rows
      && r.dcs.rows[r.transfers.rows[t].dc].status in {Splitting, Split}
  {
    ReachedInv(starts, first);
    IssuedChildForEver(Reached(starts, first), rest, g);
    RunConcat(Empty(starts), first, rest);
  }

  lemma {:induction false} RunConcat(s: Store, a: seq<Action>, b: seq<Action>)
    ensures Run(s, a + b) == Run(Run(s, a), b)
  {
    if b == [] {
      assert a + b == a;
    } else {
      var n := |b| - 1;
      RunConcat(s, a, b[..n]);
      assert (a + b)[..|a + b| - 1] == a + b[..n];
    }
  }
}
