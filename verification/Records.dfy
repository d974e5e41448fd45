/** The record tables behind delivery challans (DCs), as one value and as the
    database object the services update in place. */
module Records {
  import opened Tables
  import opened Numbering

  datatype Option<+T> = None | Some(value: T)

  datatype SourceKey = SourceKey(itemType: string, itemId: string)

  datatype Kind = Transit | Official | Transfer
  datatype Status = Draft | Issued | Splitting | Split

  datatype Challan = Challan(project: Id, number: DocNo, kind: Kind, status: Status,
                             group: Id, shipTo: Id, date: Date)

  datatype Line = Line(dc: Id, key: SourceKey, quantity: int, rate: real, taxPercent: real,
                       taxable: real, tax: real, total: real, order: nat)

  datatype Serial = Serial(project: Id, line: Id, text: string)

  /** The metadata row of a transfer DC. */
  datatype TransferDc = TransferDc(dc: Id, numDestinations: nat, numSplit: nat)

  datatype Destination = Destination(transfer: Id, shipTo: Id, isSplit: bool, splitGroup: Id)

  /** The quantity of one item planned for one destination. */
  datatype Plan = Plan(destination: Id, key: SourceKey, quantity: int)

  datatype SplitRec = SplitRec(transfer: Id, group: Id, number: int)

  /** A shipment group; transfer and split are blank for direct shipments. */
  datatype Group = Group(project: Id, locations: nat, status: Status, transfer: Id, split: Id)

  datatype Store = Store(
    dcs: Table<Challan>, lines: Table<Line>, serials: Table<Serial>,
    transfers: Table<TransferDc>, dests: Table<Destination>, plans: Table<Plan>,
    splits: Table<SplitRec>, groups: Table<Group>,
    counters: Counters, starts: Starts)

  datatype Error =
    | ChallanNotFound | WrongStatus | NotTransfer | NoMetadata
    | DestinationNotFound(dest: Id) | AlreadySplit(dest: Id) | ForeignDestination(dest: Id)
    | NoLocations
    | SplitNotFound | MetadataNotFound | ParentNotFound | GroupNotFound | GroupNotDraft
    | MemberNotDraft | SerialCount(line: Id) | SerialDuplicate(line: Id) | SerialInUse(line: Id)

  datatype Outcome<+T> = Ok(value: T) | Err(error: Error)

  // ---- Queries ----

  function LinesOf(lines: Table<Line>, dc: Id): set<Id> {
    set l | l in lines.rows && lines.rows[l].dc == dc
  }

  function SerialsOf(serials: Table<Serial>, line: Id): set<Id> {
    set x | x in serials.rows && serials.rows[x].line == line
  }

  function Members(dcs: Table<Challan>, group: Id): set<Id> {
    set d | d in dcs.rows && dcs.rows[d].group == group
  }

  function MetadataOf(transfers: Table<TransferDc>, dc: Id): set<Id> {
    set t | t in transfers.rows && transfers.rows[t].dc == dc
  }

  function DestinationsOf(dests: Table<Destination>, transfer: Id): set<Id> {
    set d | d in dests.rows && dests.rows[d].transfer == transfer
  }

  /** The destinations of a transfer that point at a group. */
  function Block(dests: Table<Destination>, transfer: Id, group: Id): set<Id> {
    set d | d in dests.rows && dests.rows[d].transfer == transfer && dests.rows[d].splitGroup == group
  }

  function PlansFor(plans: Table<Plan>, dest: Id, key: SourceKey): set<Id> {
    set p | p in plans.rows && plans.rows[p].destination == dest && plans.rows[p].key == key
  }

  /** The planned quantity: that of the first matching row, or 0. */
  function Planned(plans: Table<Plan>, dest: Id, key: SourceKey): int {
    var found := PlansFor(plans, dest, key);
    if found == {} then 0 else plans.rows[Least(found)].quantity
  }

  // ---- The database object ----

  class Database {
    var dcs: Table<Challan>
    var lines: Table<Line>
    var serials: Table<Serial>
    var transfers: Table<TransferDc>
    var dests: Table<Destination>
    var plans: Table<Plan>
    var splits: Table<SplitRec>
    var groups: Table<Group>
    var counters: Counters
    const starts: Starts

    constructor (starts: Starts)
      ensures Snapshot() == Empty(starts)
    {
      this.starts := starts;
      dcs, lines, serials := Table(map[], 1), Table(map[], 1), Table(map[], 1);
      transfers, dests, plans := Table(map[], 1), Table(map[], 1), Table(map[], 1);
      splits, groups, counters := Table(map[], 1), Table(map[], 1), map[];
    }

    ghost function Snapshot(): Store
      reads this
    {
      Store(dcs, lines, serials, transfers, dests, plans, splits, groups, counters, starts)
    }

    /** Draws the next number of a document type; the draw is one atomic step. */
    method NextDocNumber(project: Id, kind: SeqType, date: Date) returns (no: DocNo)
      modifies this`counters
      ensures no.key == SeqKey(project, kind, FinancialYear(date))
      ensures 4 <= date.month ==> TwoDigitValue(no.key.year[..2]) == date.year % 100
      ensures date.month <= 3 ==> TwoDigitValue(no.key.year[..2]) == (date.year - 1) % 100
      ensures no.num == (if no.key in old(counters) then old(counters)[no.key] + 1
                         else if (project, kind) in starts && starts[(project, kind)] != 0 then starts[(project, kind)] else 1)
      ensures no.num == NextNumber(old(counters), starts, no.key) && counters == old(counters)[no.key := no.num]
      ensures counters == Advance(old(counters), starts, no.key, 1)
    {
      var key := SeqKey(project, kind, FinancialYear(date));
      YearRunsAprilToMarch(date);
      var next: nat;
      if key in counters {
        next := counters[key] + 1;
      } else {
        next := StartOf(starts, key);
      }
      counters := counters[key := next];
      no := DocNo(key, next);
    }
  }

  function Empty(starts: Starts): Store {
    Store(Table(map[], 1), Table(map[], 1), Table(map[], 1), Table(map[], 1), Table(map[], 1),
          Table(map[], 1), Table(map[], 1), Table(map[], 1), map[], starts)
  }
}
