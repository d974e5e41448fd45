/** What adding and removing a shipment group keeps, whatever group it is. */
module ShipmentFacts {
  import opened Tables
  import opened Numbering
  import opened Records
  import opened Shipments
  import opened IssueSpec
  import opened Invariants

  // ---- Adding ----

  /** u is t with a draft transit DC for group g at the next id, and n draft official DCs after it. */
  ghost predicate ChallansAdded(t: Table<Challan>, u: Table<Challan>, g: Id, n: nat) {
    && u.Valid()
    && (forall d :: d in u.rows <==> d in t.rows || t.next <= d <= t.next + n)
    && (forall d :: d in t.rows ==> u.rows[d] == t.rows[d])
    && (forall d :: t.next <= d <= t.next + n ==>
          u.rows[d].group == g && u.rows[d].status == Draft
          && u.rows[d].kind == if d == t.next then Transit else Official)
  }

  lemma InsertedChallans(t: Table<Challan>, rows: seq<Challan>, g: Id)
    requires t.Valid() && 0 < |rows|
    requires forall k :: 0 <= k < |rows| ==>
      rows[k].group == g && rows[k].status == Draft && rows[k].kind == if k == 0 then Transit else Official
    ensures ChallansAdded(t, t.InsertAll(rows), g, |rows| - 1)
  {
    Inserted(t, rows);
  }

  lemma AddedChallans(s: Store, sh: Shipment)
    requires s.dcs.Valid()
    ensures ChallansAdded(s.dcs, AddShipment(s, sh).dcs, s.groups.next, |sh.consignments|)
  {
    InsertedChallans(s.dcs, ShipmentChallans(s, sh), s.groups.next);
  }

  lemma {:induction false} OfficialLinesAddressed(cs: seq<Consignment>, first: Id, n: nat)
    requires n <= |cs|
    ensures forall r :: r in OfficialLines(cs, first, n) ==> first <= r.dc < first + n
  {
    if n > 0 {
      OfficialLinesAddressed(cs, first, n - 1);
    }
  }

  ghost predicate LinesWithin(t: Table<Line>, u: Table<Line>, lo: Id, hi: Id) {
    && u.Valid()
    && (forall l :: l in t.rows ==> l in u.rows && u.rows[l] == t.rows[l])
    && (forall l :: l in u.rows && l !in t.rows ==> t.next <= l && lo <= u.rows[l].dc <= hi)
  }

  /** The lines of a new shipment lie on its DCs. */
  lemma AddedLines(s: Store, sh: Shipment)
    requires s.lines.Valid()
    ensures LinesWithin(s.lines, AddShipment(s, sh).lines, s.dcs.next, s.dcs.next + |sh.consignments|)
  {
    var x := s.dcs.next;
    OfficialLinesAddressed(sh.consignments, x + 1, |sh.consignments|);
    assert forall r :: r in ItemLines(sh.items, x) ==> r.dc == x;
    InsertAllExtends(s.lines, ShipmentLines(s, sh));
  }

  ghost predicate SerialsWithin(t: Table<Serial>, u: Table<Serial>, lines: Table<Line>) {
    && u.Valid()
    && (forall x :: x in t.rows ==> x in u.rows && u.rows[x] == t.rows[x])
    && (forall x :: x in u.rows && x !in t.rows ==> t.next <= x && u.rows[x].line in lines.rows)
  }

  lemma {:induction false} SerialRowsAddressed(items: seq<Item>, project: Id, first: Id, n: nat)
    requires n <= |items|
    ensures forall r :: r in SerialRows(items, project, first, n) ==> first <= r.line < first + n
  {
    if n > 0 {
      SerialRowsAddressed(items, project, first, n - 1);
    }
  }

  lemma {:induction false} SerialRowsClean(items: seq<Item>, project: Id, first: Id, n: nat)
    requires n <= |items|
    requires forall i, t :: 0 <= i < |items| && t in items[i].serials ==> CleanText(t)
    ensures forall r :: r in SerialRows(items, project, first, n) ==> CleanText(r.text)
  {
    if n > 0 {
      SerialRowsClean(items, project, first, n - 1);
    }
  }

  lemma AddedSerials(s: Store, sh: Shipment)
    requires s.serials.Valid() && s.lines.Valid()
    ensures SerialsWithin(s.serials, AddShipment(s, sh).serials, AddShipment(s, sh).lines)
  {
    InsertAllExtends(s.serials, SerialRows(sh.items, sh.project, s.lines.next, |sh.items|));
    SerialRowsAddressed(sh.items, sh.project, s.lines.next, |sh.items|);
    InsertAllExtends(s.lines, ShipmentLines(s, sh));
    Inserted(s.lines, ShipmentLines(s, sh));
  }

  lemma AddedCleanSerials(s: Store, sh: Shipment)
    requires s.serials.Valid() && CleanSerials(s.serials)
    requires forall i, t :: 0 <= i < |sh.items| && t in sh.items[i].serials ==> CleanText(t)
    ensures CleanSerials(AddShipment(s, sh).serials)
  {
    InsertAllExtends(s.serials, SerialRows(sh.items, sh.project, s.lines.next, |sh.items|));
    SerialRowsClean(sh.items, sh.project, s.lines.next, |sh.items|);
  }

  lemma AddKeepsMetadata(t: Table<Challan>, u: Table<Challan>, g: Id, n: nat, transfers: Table<TransferDc>)
    requires ChallansAdded(t, u, g, n) && MetadataLinked(t, transfers)
    ensures MetadataLinked(u, transfers)
  {
  }

  lemma AddKeepsMembers(t: Table<Challan>, u: Table<Challan>, n: nat, groups: Table<Group>, row: Group)
    requires t.Valid() && groups.Valid() && ChallansAdded(t, u, groups.next, n) && MembersLinked(t, groups)
    requires row.status == Draft
    ensures MembersLinked(u, groups.Insert(row))
  {
  }

  lemma AddedMembers(t: Table<Challan>, u: Table<Challan>, n: nat, groups: Table<Group>)
    requires t.Valid() && ChallansAdded(t, u, groups.next, n) && groups.Valid() && MembersLinked(t, groups)
    ensures Members(u, groups.next) == IdRange(t.next, n + 1)
    ensures TransitMembers(u, groups.next) == {t.next}
    ensures forall h :: h in groups.rows ==> Members(u, h) == Members(t, h)
    ensures forall h :: h in groups.rows ==> TransitMembers(u, h) == TransitMembers(t, h)
  {
  }

  lemma AddKeepsShape(t: Table<Challan>, u: Table<Challan>, n: nat, groups: Table<Group>, row: Group)
    requires t.Valid() && groups.Valid() && ChallansAdded(t, u, groups.next, n)
    requires MembersLinked(t, groups) && GroupsShaped(t, groups)
    requires row.status == Draft
    ensures GroupsShaped(u, groups.Insert(row))
  {
    AddedMembers(t, u, n, groups);
  }

  // ---- Numbers ----

  ghost predicate NumbersFresh(t: Table<Challan>, u: Table<Challan>, counters: Counters, counters': Counters) {
    && (forall d :: d in t.rows ==> d in u.rows && u.rows[d].number == t.rows[d].number)
    && (forall k :: k in counters ==> k in counters' && counters[k] <= counters'[k])
    && (forall d :: d in u.rows && d !in t.rows ==>
          var no := u.rows[d].number;
          && no.key in counters' && no.num <= counters'[no.key]
          && (no.key in counters ==> counters[no.key] < no.num))
    && (forall d, e :: d in u.rows && d !in t.rows && e in u.rows && e !in t.rows && u.rows[d].number == u.rows[e].number ==> d == e)
  }

  lemma FreshNumbersKeep(t: Table<Challan>, u: Table<Challan>, counters: Counters, counters': Counters)
    requires Numbered(t, counters) && NumbersFresh(t, u, counters, counters')
    ensures Numbered(u, counters')
  {
  }

  ghost predicate Drawn(no: DocNo, counters: Counters, counters': Counters) {
    && no.key in counters' && no.num <= counters'[no.key]
    && (no.key in counters ==> counters[no.key] < no.num)
  }

  lemma InsertedNumbers(t: Table<Challan>, rows: seq<Challan>, counters: Counters, counters': Counters)
    requires t.Valid()
    requires forall k :: k in counters ==> k in counters' && counters[k] <= counters'[k]
    requires forall k :: 0 <= k < |rows| ==> Drawn(rows[k].number, counters, counters')
    requires forall j, k :: 0 <= j < k < |rows| ==> rows[j].number != rows[k].number
    ensures NumbersFresh(t, t.InsertAll(rows), counters, counters')
  {
    Inserted(t, rows);
    forall d | d in t.InsertAll(rows).rows && d !in t.rows
      ensures Drawn(t.InsertAll(rows).rows[d].number, counters, counters')
    {
      assert t.InsertAll(rows).rows[d] == rows[d - t.next];
    }
  }

  lemma AddedNumbers(s: Store, sh: Shipment)
    requires s.dcs.Valid()
    ensures NumbersFresh(s.dcs, AddShipment(s, sh).dcs, s.counters, AddShipment(s, sh).counters)
  {
    var rows := ShipmentChallans(s, sh);
    var tkey, okey := TransitKey(sh.project, sh.date), OfficialKey(sh.project, sh.date);
    var first := NextNumber(s.counters, s.starts, okey);
    assert tkey != okey;
    assert forall k :: 0 < k < |rows| ==> rows[k].number == DocNo(okey, first + (k - 1));
    InsertedNumbers(s.dcs, rows, s.counters, AddShipment(s, sh).counters);
  }
}
