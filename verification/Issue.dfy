/** services/dc_issue.go as functions of the tables. */
module IssueSpec {
  import opened Tables
  import opened Records
  import opened Serials

  datatype Tracking = Untracked | Optional | Required

  type TrackingTable = map<SourceKey, Tracking>   // absent means untracked

  predicate SerialsRequired(tracking: TrackingTable, key: SourceKey) {
    key in tracking && tracking[key] == Required
  }

  /** The serial texts recorded on a line, oldest first. */
  function Texts(serials: Table<Serial>, ids: seq<Id>): (r: seq<string>)
    requires forall x :: x in ids ==> x in serials.rows
  {
    seq(|ids|, i requires 0 <= i < |ids| => serials.rows[ids[i]].text)
  }

  function LineTexts(serials: Table<Serial>, line: Id): (r: seq<string>)
    ensures |r| == |SerialsOf(serials, line)|
  {
    Texts(serials, Ascending(SerialsOf(serials, line)))
  }

  /** Texts recorded on the lines of one DC. */
  function OwnTexts(s: Store, dc: Id): set<string> {
    set x | x in s.serials.rows && s.serials.rows[x].line in LinesOf(s.lines, dc) :: s.serials.rows[x].text
  }

  /** Texts the uniqueness check looks up: the project's, minus those of the DC itself. */
  function OtherTexts(s: Store, dc: Id, project: Id): set<string> {
    set x | x in s.serials.rows && s.serials.rows[x].project == project
            && s.serials.rows[x].text !in OwnTexts(s, dc) :: s.serials.rows[x].text
  }

  /** The verdict of the uniqueness check on the texts of line l. */
  function TextProblem(texts: seq<string>, others: set<string>, l: Id): Option<Error> {
    var es := Entries(texts, |texts|);
    if Repeats(es) != [] then Some(SerialDuplicate(l))
    else if exists e :: e in es && e in others then Some(SerialInUse(l))
    else None
  }

  function LineProblem(s: Store, tracking: TrackingTable, others: set<string>, l: Id): Option<Error>
    requires l in s.lines.rows
  {
    var row := s.lines.rows[l];
    var texts := LineTexts(s.serials, l);
    if SerialsRequired(tracking, row.key) && row.quantity > 0 && |texts| != row.quantity then Some(SerialCount(l))
    else if texts != [] then TextProblem(texts, others, l)
    else None
  }

  /** The first problem of a list of findings. */
  function First(findings: seq<Option<Error>>): Option<Error> {
    if findings == [] then None else if findings[0].Some? then findings[0] else First(findings[1..])
  }

  lemma {:induction false} FirstIs(findings: seq<Option<Error>>, i: nat)
    requires i <= |findings| && forall k :: 0 <= k < i ==> findings[k] == None
    ensures First(findings) == if i == |findings| then None else First(findings[i..])
    ensures i < |findings| && findings[i].Some? ==> First(findings) == findings[i]
  {
    if i > 0 {
      FirstIs(findings[1..], i - 1);
      assert findings[1..][i - 1..] == findings[i..];
    }
  }

  function LineProblems(s: Store, tracking: TrackingTable, others: set<string>, ids: seq<Id>): seq<Option<Error>>
    requires forall l :: l in ids ==> l in s.lines.rows
  {
    seq(|ids|, i requires 0 <= i < |ids| => LineProblem(s, tracking, others, ids[i]))
  }

  /** The verdict of the serial checks on one DC. */
  function SerialCheck(s: Store, tracking: TrackingTable, dc: Id, project: Id): Option<Error> {
    First(LineProblems(s, tracking, OtherTexts(s, dc, project), Ascending(LinesOf(s.lines, dc))))
  }

  // ---- Issuing a group ----

  function TransitMembers(dcs: Table<Challan>, g: Id): set<Id> {
    set d | d in dcs.rows && dcs.rows[d].group == g && dcs.rows[d].kind == Transit
  }

  /** Only transit DCs are checked. */
  function MemberProblem(s: Store, tracking: TrackingTable, project: Id, d: Id): Option<Error>
    requires d in s.dcs.rows
  {
    if s.dcs.rows[d].kind != Transit then None else SerialCheck(s, tracking, d, project)
  }

  function MemberProblems(s: Store, tracking: TrackingTable, project: Id, ids: seq<Id>): seq<Option<Error>>
    requires forall d :: d in ids ==> d in s.dcs.rows
  {
    seq(|ids|, i requires 0 <= i < |ids| => MemberProblem(s, tracking, project, ids[i]))
  }

  function GroupIssueCheck(s: Store, tracking: TrackingTable, g: Id): Option<Error> {
    if g !in s.groups.rows then Some(GroupNotFound)
    else if s.groups.rows[g].status != Draft then Some(WrongStatus)
    else if exists d :: d in Members(s.dcs, g) && s.dcs.rows[d].status != Draft then Some(MemberNotDraft)
    else First(MemberProblems(s, tracking, s.groups.rows[g].project, Ascending(Members(s.dcs, g))))
  }

  function IssueAll(dcs: Table<Challan>, ds: set<Id>): Table<Challan> {
    dcs.(rows := map d | d in dcs.rows :: if d in ds then dcs.rows[d].(status := Issued) else dcs.rows[d])
  }

  function AfterGroupIssue(s: Store, g: Id): Store
    requires g in s.groups.rows
  {
    s.(dcs := IssueAll(s.dcs, Members(s.dcs, g)),
       groups := s.groups.Update(g, s.groups.rows[g].(status := Issued)))
  }

  // ---- Issuing one DC ----

  function TransferIssueCheck(s: Store, tracking: TrackingTable, dc: Id): Option<Error> {
    if dc !in s.dcs.rows then Some(ChallanNotFound)
    else if s.dcs.rows[dc].status != Draft then Some(WrongStatus)
    else if s.dcs.rows[dc].kind != Transfer then Some(NotTransfer)
    else SerialCheck(s, tracking, dc, s.dcs.rows[dc].project)
  }

  function AfterTransferIssue(s: Store, dc: Id): Store
    requires dc in s.dcs.rows
  {
    s.(dcs := s.dcs.Update(dc, s.dcs.rows[dc].(status := Issued)))
  }

  function SingleIssueCheck(s: Store, tracking: TrackingTable, dc: Id): Option<Error> {
    if dc !in s.dcs.rows then Some(ChallanNotFound)
    else if s.dcs.rows[dc].status != Draft then Some(WrongStatus)
    else if s.dcs.rows[dc].group != 0 then GroupIssueCheck(s, tracking, s.dcs.rows[dc].group)
    else SerialCheck(s, tracking, dc, s.dcs.rows[dc].project)
  }

  function AfterSingleIssue(s: Store, dc: Id): Store
    requires dc in s.dcs.rows && (s.dcs.rows[dc].group != 0 ==> s.dcs.rows[dc].group in s.groups.rows)
  {
    if s.dcs.rows[dc].group != 0 then AfterGroupIssue(s, s.dcs.rows[dc].group) else AfterTransferIssue(s, dc)
  }
}
