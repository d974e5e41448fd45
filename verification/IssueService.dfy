/** services/dc_issue.go: the serial checks, and issuing groups and DCs. */
module IssueService {
  import opened Tables
  import opened Numbering
  import opened Records
  import opened Serials
  import opened IssueSpec
  import opened Invariants
  import opened SerialRules
  import Runs

  // ---- Serial checks ----

  /** Which DC a serial is recorded on. */
  datatype Holder = Unknown | OnChallan(number: DocNo)

  method TextsOfLine(db: Database, line: Id) returns (texts: seq<string>)
    ensures texts == LineTexts(db.serials, line)
  {
    var ids := Ascending(SerialsOf(db.serials, line));
    texts := [];
    for i := 0 to |ids|
      invariant |texts| == i && forall k :: 0 <= k < i ==> texts[k] == LineTexts(db.serials, line)[k]
    {
      assert ids[i] in ids;
      texts := texts + [db.serials.rows[ids[i]].text];
    }
  }

  /** The texts recorded on the lines ids. */
  ghost function TextsOn(serials: Table<Serial>, ids: seq<Id>): set<string> {
    set x | x in serials.rows && serials.rows[x].line in ids :: serials.rows[x].text
  }

  lemma TextsOnMore(serials: Table<Serial>, ids: seq<Id>, l: Id)
    ensures TextsOn(serials, ids + [l]) == TextsOn(serials, ids) + (set t | t in LineTexts(serials, l))
  {
    TextsOnConcat(serials, ids, l);
    TextsOnOne(serials, l);
  }

  lemma TextsOnConcat(serials: Table<Serial>, ids: seq<Id>, l: Id)
    ensures TextsOn(serials, ids + [l]) == TextsOn(serials, ids) + TextsOn(serials, [l])
  {
    assert forall i :: i in ids + [l] <==> i in ids || i in [l];
  }

  lemma TextsOnOne(serials: Table<Serial>, l: Id)
    ensures TextsOn(serials, [l]) == (set t | t in LineTexts(serials, l))
  {
    forall t | t in TextsOn(serials, [l])
      ensures t in LineTexts(serials, l)
    {
      var x :| x in serials.rows && serials.rows[x].line in [l] && serials.rows[x].text == t;
      LineTextsHold(serials, l, x);
    }
    forall t | t in LineTexts(serials, l)
      ensures t in TextsOn(serials, [l])
    {
      var k :| 0 <= k < |LineTexts(serials, l)| && LineTexts(serials, l)[k] == t;
      var x := Ascending(SerialsOf(serials, l))[k];
      assert x in SerialsOf(serials, l) && serials.rows[x].text == t && serials.rows[x].line in [l];
    }
  }

  lemma LineTextsHold(serials: Table<Serial>, l: Id, x: Id)
    requires x in SerialsOf(serials, l)
    ensures serials.rows[x].text in LineTexts(serials, l)
  {
    var ids := Ascending(SerialsOf(serials, l));
    assert x in ids;
    var k :| 0 <= k < |ids| && ids[k] == x;
    assert LineTexts(serials, l)[k] == serials.rows[x].text;
  }

  /** First pass: the serials of this DC. */
  method CollectOwn(db: Database, dc: Id) returns (own: set<string>)
    ensures own == OwnTexts(db.Snapshot(), dc)
  {
    var ids := Ascending(LinesOf(db.lines, dc));
    own := {};
    assert TextsOn(db.serials, ids[..0]) == {};
    for i := 0 to |ids|
      invariant own == TextsOn(db.serials, ids[..i])
    {
      var texts := TextsOfLine(db, ids[i]);
      TextsOnMore(db.serials, ids[..i], ids[i]);
      assert ids[..i + 1] == ids[..i] + [ids[i]];
      own := own + set t | t in texts;
    }
    assert ids[..|ids|] == ids;
  }

  method HolderOf(db: Database, line: Id) returns (holder: Holder)
    ensures line in db.lines.rows && db.lines.rows[line].dc in db.dcs.rows ==> holder == OnChallan(db.dcs.rows[db.lines.rows[line].dc].number)
    ensures !(line in db.lines.rows && db.lines.rows[line].dc in db.dcs.rows) ==> holder == Unknown
    ensures forall x :: x in db.serials.rows && db.serials.rows[x].line == line ==> HoldsSerial(db.Snapshot(), x, holder)
  {
    if line !in db.lines.rows || db.lines.rows[line].dc !in db.dcs.rows {
      return Unknown;
    }
    return OnChallan(db.dcs.rows[db.lines.rows[line].dc].number);
  }

  /** A serial of the project with this text is recorded on a line of that holder. */
  ghost predicate Held(s: Store, project: Id, text: string, holder: Holder) {
    exists x :: x in s.serials.rows && s.serials.rows[x].project == project && s.serials.rows[x].text == text && HoldsSerial(s, x, holder)
  }

  ghost predicate HoldsSerial(s: Store, x: Id, holder: Holder)
    requires x in s.serials.rows
  {
    var line := s.serials.rows[x].line;
    match holder
    case Unknown => line !in s.lines.rows || s.lines.rows[line].dc !in s.dcs.rows
    case OnChallan(number) => line in s.lines.rows && s.lines.rows[line].dc in s.dcs.rows && s.dcs.rows[s.lines.rows[line].dc].number == number
  }

  lemma HeldBy(s: Store, project: Id, x: Id, holder: Holder)
    requires x in s.serials.rows && s.serials.rows[x].project == project && HoldsSerial(s, x, holder)
    ensures Held(s, project, s.serials.rows[x].text, holder)
  {
  }

  function ProjectSerials(serials: Table<Serial>, project: Id): set<Id> {
    set x | x in serials.rows && serials.rows[x].project == project
  }

  /** existing holds the texts of the first n of ids that are not among own, each with a DC that records it. */
  ghost predicate OthersUpTo(s: Store, project: Id, own: set<string>, ids: seq<Id>, n: nat, existing: map<string, Holder>)
    requires n <= |ids|
  {
    && (forall t :: t in existing ==> exists k :: 0 <= k < n && ids[k] in s.serials.rows && s.serials.rows[ids[k]].text == t && t !in own)
    && (forall k :: 0 <= k < n && ids[k] in s.serials.rows && s.serials.rows[ids[k]].text !in own ==> s.serials.rows[ids[k]].text in existing)
    && (forall t :: t in existing ==> Held(s, project, t, existing[t]))
  }

  lemma NextOther(s: Store, project: Id, own: set<string>, ids: seq<Id>, n: nat, existing: map<string, Holder>, holder: Holder)
    requires n < |ids| && ids[n] in s.serials.rows && s.serials.rows[ids[n]].project == project
    requires OthersUpTo(s, project, own, ids, n, existing)
    requires s.serials.rows[ids[n]].text !in own ==> HoldsSerial(s, ids[n], holder)
    ensures var text := s.serials.rows[ids[n]].text;
      OthersUpTo(s, project, own, ids, n + 1, if text in own then existing else existing[text := holder])
  {
    hide Held, HoldsSerial;
    if s.serials.rows[ids[n]].text !in own {
      HeldBy(s, project, ids[n], holder);
    }
  }

  /** Second pass: the other serials of the project, with the DC that holds each. */
  method CollectOthers(db: Database, dc: Id, project: Id, own: set<string>) returns (existing: map<string, Holder>)
    requires own == OwnTexts(db.Snapshot(), dc)
    ensures existing.Keys == OtherTexts(db.Snapshot(), dc, project)
    ensures forall t :: t in existing ==> Held(db.Snapshot(), project, t, existing[t])
  {
    hide Held, HoldsSerial, OtherTexts, OwnTexts, OthersUpTo;
    var ids := Ascending(ProjectSerials(db.serials, project));
    existing := map[];
    NoOthers(db.Snapshot(), project, own, ids);
    for i := 0 to |ids|
      invariant OthersUpTo(db.Snapshot(), project, own, ids, i, existing)
    {
      assert ids[i] in ids;
      var row := db.serials.rows[ids[i]];
      ghost var before := existing;
      var holder := Unknown;
      if row.text !in own {
        holder := HolderOf(db, row.line);
        existing := existing[row.text := holder];
      }
      NextOther(db.Snapshot(), project, own, ids, i, before, holder);
    }
    OthersCollected(db.Snapshot(), dc, project, own, ids, existing);
  }

  lemma NoOthers(s: Store, project: Id, own: set<string>, ids: seq<Id>)
    ensures OthersUpTo(s, project, own, ids, 0, map[])
  {
  }

  lemma OthersCollected(s: Store, dc: Id, project: Id, own: set<string>, ids: seq<Id>, existing: map<string, Holder>)
    requires own == OwnTexts(s, dc) && ids == Ascending(ProjectSerials(s.serials, project))
    requires OthersUpTo(s, project, own, ids, |ids|, existing)
    ensures existing.Keys == OtherTexts(s, dc, project) && forall t :: t in existing ==> Held(s, project, t, existing[t])
  {
    forall t | t in existing
      ensures t in OtherTexts(s, dc, project)
    {
      var k :| 0 <= k < |ids| && ids[k] in s.serials.rows && s.serials.rows[ids[k]].text == t && t !in own;
      assert ids[k] in ProjectSerials(s.serials, project);
    }
    forall t | t in OtherTexts(s, dc, project)
      ensures t in existing
    {
      var x :| x in s.serials.rows && s.serials.rows[x].project == project && s.serials.rows[x].text == t && t !in own;
      assert x in ids;
      var k :| 0 <= k < |ids| && ids[k] == x;
    }
  }

  method ValidateTexts(texts: seq<string>, existing: map<string, Holder>, l: Id) returns (problem: Option<Error>)
    ensures problem == TextProblem(texts, existing.Keys, l)
  {
    var r := ValidateSerials(texts, |texts|, existing);
    ghost var es := Entries(texts, |texts|);
    RepeatsNone(es);
    KnownNone(Distinct(es), existing, |Distinct(es)|);
    if !r.valid {
      if |r.repeated| > 0 {
        return Some(SerialDuplicate(l));
      }
      if |r.known| > 0 {
        return Some(SerialInUse(l));
      }
    }
    return None;
  }

  /** The check of one line. */
  method ValidateLine(db: Database, tracking: TrackingTable, existing: map<string, Holder>, l: Id) returns (problem: Option<Error>)
    requires l in db.lines.rows
    ensures problem == LineProblem(db.Snapshot(), tracking, existing.Keys, l)
  {
    var row := db.lines.rows[l];
    var serials := TextsOfLine(db, l);
    if SerialsRequired(tracking, row.key) && row.quantity > 0 && |serials| != row.quantity {
      return Some(SerialCount(l));
    }
    if |serials| > 0 {
      problem := ValidateTexts(serials, existing, l);
    } else {
      problem := None;
    }
  }

  /** The lines in turn, up to the first problem. */
  method ValidateLines(db: Database, tracking: TrackingTable, existing: map<string, Holder>, ids: seq<Id>) returns (problem: Option<Error>)
    requires forall l :: l in ids ==> l in db.lines.rows
    ensures problem == First(LineProblems(db.Snapshot(), tracking, existing.Keys, ids))
  {
    ghost var findings := LineProblems(db.Snapshot(), tracking, existing.Keys, ids);
    for i := 0 to |ids|
      invariant forall k :: 0 <= k < i ==> findings[k] == None
    {
      assert ids[i] in ids;
      problem := ValidateLine(db, tracking, existing, ids[i]);
      if problem.Some? {
        FirstIs(findings, i);
        return;
      }
    }
    FirstIs(findings, |ids|);
    return None;
  }

  /** validateDCSerials */
  method ValidateChallanSerials(db: Database, tracking: TrackingTable, dc: Id, project: Id) returns (problem: Option<Error>)
    ensures problem == SerialCheck(db.Snapshot(), tracking, dc, project)
    ensures CleanSerials(db.serials) ==> (problem == None <==> Acceptable(db.Snapshot(), tracking, dc))
  {
    hide Acceptable, LineProblems, OtherTexts, OwnTexts, CleanSerials;
    var own := CollectOwn(db, dc);
    var existing := CollectOthers(db, dc, project, own);
    problem := ValidateLines(db, tracking, existing, Ascending(LinesOf(db.lines, dc)));
    if CleanSerials(db.serials) {
      SerialCheckExactly(db.Snapshot(), tracking, dc, project);
    }
  }

  // ---- Issuing ----

  method ValidateMember(db: Database, tracking: TrackingTable, project: Id, dc: Id) returns (problem: Option<Error>)
    requires dc in db.dcs.rows
    ensures problem == MemberProblem(db.Snapshot(), tracking, project, dc)
  {
    if db.dcs.rows[dc].kind != Transit {
      return None;
    }
    problem := ValidateChallanSerials(db, tracking, dc, project);
  }

  method ValidateMembers(db: Database, tracking: TrackingTable, ids: seq<Id>, project: Id) returns (problem: Option<Error>)
    requires forall d :: d in ids ==> d in db.dcs.rows
    ensures problem == First(MemberProblems(db.Snapshot(), tracking, project, ids))
  {
    hide MemberProblem, SerialCheck;
    ghost var findings := MemberProblems(db.Snapshot(), tracking, project, ids);
    for i := 0 to |ids|
      invariant forall k :: 0 <= k < i ==> findings[k] == None
    {
      problem := ValidateMember(db, tracking, project, ids[i]);
      if problem.Some? {
        FirstIs(findings, i);
        return;
      }
    }
    FirstIs(findings, |ids|);
    return None;
  }

  method AllDraft(db: Database, ids: seq<Id>) returns (draft: bool)
    requires forall d :: d in ids ==> d in db.dcs.rows
    ensures draft <==> forall d :: d in ids ==> db.dcs.rows[d].status == Draft
  {
    for i := 0 to |ids|
      invariant forall k :: 0 <= k < i ==> db.dcs.rows[ids[k]].status == Draft
    {
      if db.dcs.rows[ids[i]].status != Draft {
        return false;
      }
    }
    return true;
  }

  lemma IssueMore(dcs: Table<Challan>, ids: seq<Id>, i: nat)
    requires i < |ids| && ids[i] in dcs.rows
    ensures var u := IssueAll(dcs, IdsIn(ids[..i]));
      u.Update(ids[i], u.rows[ids[i]].(status := Issued)) == IssueAll(dcs, IdsIn(ids[..i + 1]))
  {
    var u := IssueAll(dcs, IdsIn(ids[..i]));
    assert ids[..i + 1] == ids[..i] + [ids[i]];
    assert IdsIn(ids[..i + 1]) == IdsIn(ids[..i]) + {ids[i]};
    assert u.Update(ids[i], u.rows[ids[i]].(status := Issued)).rows == IssueAll(dcs, IdsIn(ids[..i + 1])).rows;
  }

  method SetIssued(db: Database, dc: Id)
    requires dc in db.dcs.rows
    modifies db`dcs
    ensures db.dcs == old(db.dcs).Update(dc, old(db.dcs).rows[dc].(status := Issued))
  {
    db.dcs := db.dcs.Update(dc, db.dcs.rows[dc].(status := Issued));
  }

  method IssueMembers(db: Database, ids: seq<Id>)
    requires forall d :: d in ids ==> d in db.dcs.rows
    modifies db`dcs
    ensures db.dcs == IssueAll(old(db.dcs), IdsIn(ids))
  {
    ghost var dcs := db.dcs;
    assert IssueAll(dcs, IdsIn(ids[..0])).rows == dcs.rows;
    for i := 0 to |ids|
      invariant db.dcs == IssueAll(dcs, IdsIn(ids[..i]))
    {
      IssueMore(dcs, ids, i);
      SetIssued(db, ids[i]);
    }
    assert ids[..|ids|] == ids;
  }

  /** The checks of a group, before anything is written. */
  method CheckGroup(db: Database, tracking: TrackingTable, g: Id) returns (problem: Option<Error>)
    ensures problem == GroupIssueCheck(db.Snapshot(), tracking, g)
    ensures problem == None ==> g in db.groups.rows
  {
    hide MemberProblems, First;
    if g !in db.groups.rows {
      return Some(GroupNotFound);
    }
    if db.groups.rows[g].status != Draft {
      return Some(WrongStatus);
    }
    var ids := Ascending(Members(db.dcs, g));
    var draft := AllDraft(db, ids);
    if !draft {
      return Some(MemberNotDraft);
    }
    problem := ValidateMembers(db, tracking, ids, db.groups.rows[g].project);
  }

  lemma VerdictWhenSound(s: Store, tracking: TrackingTable, g: Id)
    ensures Inv(s) && g in s.groups.rows ==> (GroupIssueCheck(s, tracking, g) == None <==>
      s.groups.rows[g].status == Draft && forall d :: d in TransitMembers(s.dcs, g) ==> Acceptable(s, tracking, d))
  {
    hide *;
    if Inv(s) && g in s.groups.rows {
      GroupIssuableExactly(s, tracking, g);
    }
  }

  lemma IssueSteps(s: Store, tracking: TrackingTable, g: Id)
    ensures GroupIssueCheck(s, tracking, g) == None ==> g in s.groups.rows && Runs.Step(s, Runs.IssueGroup(g, tracking)) == AfterGroupIssue(s, g)
    ensures GroupIssueCheck(s, tracking, g) != None ==> Runs.Step(s, Runs.IssueGroup(g, tracking)) == s
  {
    hide AfterGroupIssue, MemberProblems, First;
  }

  /** IssueShipmentGroup: all of the group's DCs, or none. */
  method IssueShipmentGroup(db: Database, tracking: TrackingTable, g: Id) returns (problem: Option<Error>)
    modifies db`dcs, db`groups
    ensures problem == GroupIssueCheck(old(db.Snapshot()), tracking, g)
    ensures old(Inv(db.Snapshot())) && g in old(db.groups).rows ==> (problem == None <==>
      old(db.groups).rows[g].status == Draft
      && forall d :: d in TransitMembers(old(db.dcs), g) ==> Acceptable(old(db.Snapshot()), tracking, d))
    ensures db.Snapshot() == Runs.Step(old(db.Snapshot()), Runs.IssueGroup(g, tracking))
  {
    hide Inv, Acceptable, GroupIssueCheck, TransitMembers, IssueAll, Runs.Step;
    VerdictWhenSound(db.Snapshot(), tracking, g);
    IssueSteps(db.Snapshot(), tracking, g);
    problem := CheckGroup(db, tracking, g);
    if problem.Some? {
      return;
    }
    var row, ids := db.groups.rows[g], Ascending(Members(db.dcs, g));
    assert IdsIn(ids) == Members(db.dcs, g);
    IssueMembers(db, ids);
    db.groups := db.groups.Update(g, row.(status := Issued));
  }

  /** HandleShipmentGroupIssueAll: the project of the group is checked first. */
  method HandleShipmentGroupIssueAll(db: Database, tracking: TrackingTable, project: Id, g: Id) returns (problem: Option<Error>)
    modifies db`dcs, db`groups
    ensures if g in old(db.groups).rows && old(db.groups).rows[g].project != project
            then problem == Some(GroupNotFound) && db.Snapshot() == old(db.Snapshot())
            else problem == GroupIssueCheck(old(db.Snapshot()), tracking, g)
                 && db.Snapshot() == Runs.Step(old(db.Snapshot()), Runs.IssueGroup(g, tracking))
  {
    if g in db.groups.rows && db.groups.rows[g].project != project {
      return Some(GroupNotFound);
    }
    problem := IssueShipmentGroup(db, tracking, g);
  }

  /** IssueTransferDC */
  method IssueTransferDC(db: Database, tracking: TrackingTable, dc: Id) returns (problem: Option<Error>)
    modifies db`dcs
    ensures problem == TransferIssueCheck(old(db.Snapshot()), tracking, dc)
    ensures db.Snapshot() == if problem == None then AfterTransferIssue(old(db.Snapshot()), dc) else old(db.Snapshot())
  {
    if dc !in db.dcs.rows {
      return Some(ChallanNotFound);
    }
    var row := db.dcs.rows[dc];
    if row.status != Draft {
      return Some(WrongStatus);
    }
    if row.kind != Transfer {
      return Some(NotTransfer);
    }
    problem := ValidateChallanSerials(db, tracking, dc, row.project);
    if problem == None {
      SetIssued(db, dc);
    }
  }

  /** IssueSingleDC: a DC of a group issues the whole group. */
  method IssueSingleDC(db: Database, tracking: TrackingTable, dc: Id) returns (problem: Option<Error>)
    modifies db`dcs, db`groups
    ensures problem == SingleIssueCheck(old(db.Snapshot()), tracking, dc)
    ensures db.Snapshot() == Runs.Step(old(db.Snapshot()), Runs.IssueChallan(dc, tracking))
  {
    if dc !in db.dcs.rows {
      return Some(ChallanNotFound);
    }
    var row := db.dcs.rows[dc];
    if row.status != Draft {
      return Some(WrongStatus);
    }
    if row.group != 0 {
      problem := IssueShipmentGroup(db, tracking, row.group);
      return;
    }
    if row.kind == Transfer {
      problem := IssueTransferDC(db, tracking, dc);
      return;
    }
    problem := ValidateChallanSerials(db, tracking, dc, row.project);
    if problem == None {
      SetIssued(db, dc);
    }
  }
}
