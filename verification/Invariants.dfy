/** What holds of the tables in every reachable state. */
module Invariants {
  import opened Tables
  import opened Sums
  import opened Numbering
  import opened Records
  import opened SplitSpec
  import opened IssueSpec
  import Serials

  ghost predicate Tabled(s: Store) {
    s.dcs.Valid() && s.lines.Valid() && s.serials.Valid() && s.transfers.Valid()
    && s.dests.Valid() && s.plans.Valid() && s.splits.Valid() && s.groups.Valid()
  }

  /** Lines, serials, plans and destinations point at existing records. */
  ghost predicate RowsLinked(s: Store) {
    && (forall l :: l in s.lines.rows ==> s.lines.rows[l].dc in s.dcs.rows)
    && (forall x :: x in s.serials.rows ==> s.serials.rows[x].line in s.lines.rows)
    && (forall p :: p in s.plans.rows ==> s.plans.rows[p].destination in s.dests.rows)
    && (forall d :: d in s.dests.rows ==> s.dests.rows[d].transfer in s.transfers.rows)
  }

  /** Transfer DCs and metadata rows correspond one to one. */
  ghost predicate MetadataLinked(dcs: Table<Challan>, transfers: Table<TransferDc>) {
    && (forall t :: t in transfers.rows ==>
          transfers.rows[t].dc in dcs.rows && dcs.rows[transfers.rows[t].dc].kind == Transfer)
    && (forall t, u :: t in transfers.rows && u in transfers.rows && transfers.rows[t].dc == transfers.rows[u].dc ==> t == u)
    && (forall d :: d in dcs.rows && dcs.rows[d].kind == Transfer ==> MetadataOf(transfers, d) != {})
  }

  /** Transit and official DCs belong to a group and share its status; transfer DCs belong to none. */
  ghost predicate MembersLinked(dcs: Table<Challan>, groups: Table<Group>) {
    forall d :: d in dcs.rows ==>
      && (dcs.rows[d].group == 0 <==> dcs.rows[d].kind == Transfer)
      && (dcs.rows[d].group != 0 ==>
            dcs.rows[d].group in groups.rows && dcs.rows[d].status == groups.rows[dcs.rows[d].group].status)
  }

  /** A group is draft or issued and has exactly one transit DC. */
  ghost predicate GroupsShaped(dcs: Table<Challan>, groups: Table<Group>) {
    forall g :: g in groups.rows ==>
      && (groups.rows[g].status == Draft || groups.rows[g].status == Issued)
      && |TransitMembers(dcs, g)| == 1
  }

  /** Split records and child groups correspond one to one. */
  ghost predicate SplitsLinked(splits: Table<SplitRec>, groups: Table<Group>, transfers: Table<TransferDc>) {
    && (forall p :: p in splits.rows ==>
          var r := splits.rows[p];
          && r.group in groups.rows && groups.rows[r.group].split == p
          && groups.rows[r.group].transfer == r.transfer && r.transfer in transfers.rows)
    && (forall g :: g in groups.rows && groups.rows[g].transfer != 0 ==>
          groups.rows[g].split in splits.rows && splits.rows[groups.rows[g].split].group == g)
  }

  /** Flags agree with group references; a live child group has a non-empty block of its own transfer. */
  ghost predicate BlocksLinked(dests: Table<Destination>, groups: Table<Group>) {
    && (forall d :: d in dests.rows ==>
          var r := dests.rows[d];
          && (r.isSplit <==> r.splitGroup != 0)
          && r.splitGroup < groups.next
          && (r.splitGroup in groups.rows ==> groups.rows[r.splitGroup].transfer == r.transfer))
    && (forall g :: g in groups.rows && groups.rows[g].transfer != 0 ==>
          Block(dests, groups.rows[g].transfer, g) != {})
  }

  /** The groups, live or deleted, that some destination of t is flagged for. */
  ghost function Blocks(dests: Table<Destination>, t: Id): set<Id> {
    set d | d in DestinationsOf(dests, t) && dests.rows[d].isSplit :: dests.rows[d].splitGroup
  }

  /** num_destinations and num_split count destinations and blocks; the status is a function of both. */
  ghost predicate OnTrack(dcs: Table<Challan>, transfers: Table<TransferDc>, dests: Table<Destination>, t: Id)
    requires t in transfers.rows && transfers.rows[t].dc in dcs.rows
  {
    var m := transfers.rows[t];
    var status := dcs.rows[m.dc].status;
    && 0 < m.numDestinations == |DestinationsOf(dests, t)|
    && m.numSplit == |Blocks(dests, t)|
    && (status == Draft ==> m.numSplit == 0)
    && (status != Draft ==> status == ProgressStatus(m.numSplit, m.numDestinations))
  }

  ghost predicate Progress(dcs: Table<Challan>, transfers: Table<TransferDc>, dests: Table<Destination>)
    requires forall t :: t in transfers.rows ==> transfers.rows[t].dc in dcs.rows
  {
    forall t :: t in transfers.rows ==> OnTrack(dcs, transfers, dests, t)
  }

  // ---- Amounts ----

  datatype Measure = Quantity | Taxable | TaxAmount | TotalAmount

  function Amount(l: Line, m: Measure): real {
    match m
    case Quantity => l.quantity as real
    case Taxable => l.taxable
    case TaxAmount => l.tax
    case TotalAmount => l.total
  }

  /** What a quantity amounts to at the rate and tax of a line. */
  function Scaled(l: Line, m: Measure, quantity: real): real {
    match m
    case Quantity => quantity
    case Taxable => l.rate * quantity
    case TaxAmount => l.rate * quantity * l.taxPercent / 100.0
    case TotalAmount => l.rate * quantity + l.rate * quantity * l.taxPercent / 100.0
  }

  ghost function PlannedAt(plans: Table<Plan>, key: SourceKey): Id -> real {
    (d: Id) => Planned(plans, d, key) as real
  }

  /** The quantity planned for one item over a set of destinations. */
  ghost function PlannedFor(plans: Table<Plan>, ds: set<Id>, key: SourceKey): real {
    Sum(ds, PlannedAt(plans, key))
  }

  /** Weighs the lines for one item on the DCs of one kind in one group. */
  ghost function OnGroup(dcs: Table<Challan>, g: Id, kind: Kind, key: SourceKey, m: Measure): Line -> real {
    (l: Line) => if l.dc in dcs.rows && dcs.rows[l.dc].group == g && dcs.rows[l.dc].kind == kind && l.key == key
                 then Amount(l, m) else 0.0
  }

  ghost function GroupTotal(dcs: Table<Challan>, lines: Table<Line>, g: Id, kind: Kind, key: SourceKey, m: Measure): real {
    Total(lines.rows, OnGroup(dcs, g, kind, key, m))
  }

  /** The parent line of a transfer carries the whole plan, at its own rate and tax. */
  ghost predicate CarriesPlan(line: Line, plans: Table<Plan>, ds: set<Id>) {
    forall m :: Amount(line, m) == Scaled(line, m, PlannedFor(plans, ds, line.key))
  }

  ghost predicate ParentLinesOk(lines: Table<Line>, plans: Table<Plan>, dc: Id, ds: set<Id>) {
    && (forall l :: l in LinesOf(lines, dc) ==> CarriesPlan(lines.rows[l], plans, ds))
    && (forall l, k :: l in LinesOf(lines, dc) && k in LinesOf(lines, dc) && lines.rows[l].key == lines.rows[k].key ==> l == k)
    && (forall p :: p in plans.rows && plans.rows[p].destination in ds ==>
          plans.rows[p].quantity >= 0 && exists l :: l in LinesOf(lines, dc) && lines.rows[l].key == plans.rows[p].key)
  }

  ghost predicate PlansCarried(s: Store) {
    forall t :: t in s.transfers.rows ==>
      ParentLinesOk(s.lines, s.plans, s.transfers.rows[t].dc, DestinationsOf(s.dests, t))
  }

  /** The transit lines of g for the item of line carry a planned quantity, at that line's rate and tax. */
  ghost predicate Carries(dcs: Table<Challan>, lines: Table<Line>, g: Id, line: Line, planned: real) {
    forall m :: GroupTotal(dcs, lines, g, Transit, line.key, m) == Scaled(line, m, planned)
  }

  /** Child group g carries the plan of its block for the item of parent line l. */
  ghost predicate ChildCarries(s: Store, g: Id, l: Id)
    requires g in s.groups.rows && l in s.lines.rows
  {
    var line := s.lines.rows[l];
    Carries(s.dcs, s.lines, g, line, PlannedFor(s.plans, Block(s.dests, s.groups.rows[g].transfer, g), line.key))
  }

  ghost predicate ChildrenCarry(s: Store) {
    forall g, l :: g in s.groups.rows && l in s.lines.rows
      && s.groups.rows[g].transfer in s.transfers.rows
      && s.lines.rows[l].dc == s.transfers.rows[s.groups.rows[g].transfer].dc
      ==> ChildCarries(s, g, l)
  }

  /** For every item, what leaves on the transit DC of g arrives on its official DCs. */
  ghost predicate GroupBalances(dcs: Table<Challan>, lines: Table<Line>, g: Id) {
    forall key :: GroupTotal(dcs, lines, g, Transit, key, Quantity) == GroupTotal(dcs, lines, g, Official, key, Quantity)
  }

  ghost predicate Balanced(s: Store) {
    forall g :: g in s.groups.rows ==> GroupBalances(s.dcs, s.lines, g)
  }

  // ---- Numbers and serials ----

  ghost predicate Numbered(dcs: Table<Challan>, counters: Counters) {
    && (forall d :: d in dcs.rows ==>
          dcs.rows[d].number.key in counters && dcs.rows[d].number.num <= counters[dcs.rows[d].number.key])
    && (forall d, e :: d in dcs.rows && e in dcs.rows && dcs.rows[d].number == dcs.rows[e].number ==> d == e)
  }

  predicate CleanText(text: string) {
    text != "" && Serials.IsTrimmed(text)
  }

  ghost predicate CleanSerials(serials: Table<Serial>) {
    forall x :: x in serials.rows ==> CleanText(serials.rows[x].text)
  }

  // ---- The whole ----

  ghost predicate Linked(s: Store) {
    && Tabled(s) && RowsLinked(s) && MetadataLinked(s.dcs, s.transfers) && MembersLinked(s.dcs, s.groups)
    && GroupsShaped(s.dcs, s.groups) && SplitsLinked(s.splits, s.groups, s.transfers) && BlocksLinked(s.dests, s.groups)
  }

  ghost predicate Accounted(s: Store) {
    PlansCarried(s) && ChildrenCarry(s) && Balanced(s)
  }

  /** Holds in every run, direct deletion of child groups included. */
  ghost predicate Inv(s: Store) {
    && Linked(s) && Progress(s.dcs, s.transfers, s.dests) && Accounted(s)
    && Numbered(s.dcs, s.counters) && CleanSerials(s.serials)
  }

  /** Holds besides in runs that take child groups back only by undoing their split. */
  ghost predicate NoneDangling(s: Store) {
    forall d :: d in s.dests.rows && s.dests.rows[d].isSplit ==> s.dests.rows[d].splitGroup in s.groups.rows
  }
}
