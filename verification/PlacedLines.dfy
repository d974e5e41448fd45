/** Where the lines and the serials of new DCs end up in the tables. */
module PlacedLines {
  import opened Tables
  import opened Records
  import opened Shipments
  import opened IssueSpec
  import opened Invariants
  import opened ShipmentFacts

  // ---- The serials of inserted lines ----

  lemma OwnLine(t: Table<Serial>, texts: seq<string>, project: Id, l: Id)
    requires t.Valid() && SerialsOf(t, l) == {}
    ensures LineTexts(t.InsertAll(LineSerials(texts, project, l)), l) == texts
  {
    hide Table.InsertAll, Ascending;
    var u := t.InsertAll(LineSerials(texts, project, l));
    Inserted(t, LineSerials(texts, project, l));
    assert SerialsOf(u, l) == IdRange(t.next, |texts|);
    AscendingRange(t.next, |texts|);
    assert Texts(u, IdsFrom(t.next, |texts|)) == texts;
  }

  lemma OtherLine(t: Table<Serial>, texts: seq<string>, project: Id, l: Id, k: Id)
    requires t.Valid() && k != l
    ensures var u := t.InsertAll(LineSerials(texts, project, l));
      SerialsOf(u, k) == SerialsOf(t, k) && LineTexts(u, k) == LineTexts(t, k)
  {
    hide Table.InsertAll, Ascending;
    var u := t.InsertAll(LineSerials(texts, project, l));
    Inserted(t, LineSerials(texts, project, l));
    assert SerialsOf(u, k) == SerialsOf(t, k);
    var ids := Ascending(SerialsOf(t, k));
    assert forall i :: 0 <= i < |ids| ==> ids[i] in ids;
    assert Texts(u, ids) == Texts(t, ids);
  }

  /** No serial of t is on line first or a later one. */
  ghost predicate Before(t: Table<Serial>, first: Id) {
    forall k :: first <= k ==> SerialsOf(t, k) == {}
  }

  /** The lines from first on carry the serials of the first n items, and no later line any. */
  ghost predicate LinesCarry(u: Table<Serial>, items: seq<Item>, first: Id, n: nat)
    requires n <= |items|
  {
    && u.Valid()
    && (forall i :: 0 <= i < n ==> LineTexts(u, first + i) == items[i].serials)
    && Before(u, first + n)
  }

  lemma InsertedValid(t: Table<Serial>, rows: seq<Serial>)
    requires t.Valid()
    ensures t.InsertAll(rows).Valid()
  {
    Inserted(t, rows);
  }

  lemma NextCarries(u: Table<Serial>, items: seq<Item>, project: Id, first: Id, n: nat)
    requires n < |items| && LinesCarry(u, items, first, n)
    ensures LinesCarry(u.InsertAll(LineSerials(items[n].serials, project, first + n)), items, first, n + 1)
  {
    hide Table.InsertAll, Ascending, SerialsOf, LineTexts;
    var v := u.InsertAll(LineSerials(items[n].serials, project, first + n));
    InsertedValid(u, LineSerials(items[n].serials, project, first + n));
    OwnLine(u, items[n].serials, project, first + n);
    forall k | k != first + n
      ensures SerialsOf(v, k) == SerialsOf(u, k) && LineTexts(v, k) == LineTexts(u, k)
    {
      OtherLine(u, items[n].serials, project, first + n, k);
    }
  }

  lemma {:induction false} EarlierLines(t: Table<Serial>, items: seq<Item>, project: Id, first: Id, n: nat, k: Id)
    requires t.Valid() && n <= |items| && k < first
    ensures t.InsertAll(SerialRows(items, project, first, n)).Valid()
    ensures LineTexts(t.InsertAll(SerialRows(items, project, first, n)), k) == LineTexts(t, k)
  {
    hide Table.InsertAll, LineTexts, LineSerials;
    if n == 0 {
      InsertAllNone(t);
    } else {
      EarlierLines(t, items, project, first, n - 1, k);
      InsertAllConcat(t, SerialRows(items, project, first, n - 1), LineSerials(items[n - 1].serials, project, first + (n - 1)));
      var u := t.InsertAll(SerialRows(items, project, first, n - 1));
      InsertedValid(u, LineSerials(items[n - 1].serials, project, first + (n - 1)));
      OtherLine(u, items[n - 1].serials, project, first + (n - 1), k);
    }
  }

  lemma {:induction false} ItemsCarried(t: Table<Serial>, items: seq<Item>, project: Id, first: Id, n: nat)
    requires t.Valid() && Before(t, first) && n <= |items|
    ensures LinesCarry(t.InsertAll(SerialRows(items, project, first, n)), items, first, n)
  {
    hide Table.InsertAll, LineTexts, LineSerials;
    if n == 0 {
      InsertAllNone(t);
    } else {
      ItemsCarried(t, items, project, first, n - 1);
      InsertAllConcat(t, SerialRows(items, project, first, n - 1), LineSerials(items[n - 1].serials, project, first + (n - 1)));
      NextCarries(t.InsertAll(SerialRows(items, project, first, n - 1)), items, project, first, n - 1);
    }
  }

  // ---- The lines of the new transit DC ----

  /** DC x has exactly the lines of items, from line first on. */
  ghost predicate LinesPlaced(lines: Table<Line>, items: seq<Item>, x: Id, first: Id) {
    && LinesOf(lines, x) == IdRange(first, |items|)
    && forall i :: 0 <= i < |items| ==> first + i in lines.rows && lines.rows[first + i] == items[i].line.(dc := x)
  }

  lemma RowsPlaced(lines: Table<Line>, u: Table<Line>, rows: seq<Line>, items: seq<Item>, x: Id)
    requires |items| <= |rows| && (forall l :: l in lines.rows ==> lines.rows[l].dc != x)
    requires forall i :: i in u.rows <==> i in lines.rows || lines.next <= i < lines.next + |rows|
    requires forall i :: i in lines.rows ==> i in u.rows && u.rows[i] == lines.rows[i]
    requires forall i :: lines.next <= i < lines.next + |rows| ==> i in u.rows && u.rows[i] == rows[i - lines.next]
    requires forall i :: 0 <= i < |items| ==> rows[i] == items[i].line.(dc := x)
    requires forall i :: |items| <= i < |rows| ==> rows[i].dc != x
    ensures LinesPlaced(u, items, x, lines.next)
  {
    forall l
      ensures l in LinesOf(u, x) <==> l in IdRange(lines.next, |items|)
    {
      if lines.next <= l < lines.next + |rows| {
        assert u.rows[l] == rows[l - lines.next];
      }
    }
    forall i | 0 <= i < |items|
      ensures lines.next + i in u.rows && u.rows[lines.next + i] == items[i].line.(dc := x)
    {
      assert u.rows[lines.next + i] == rows[i];
    }
  }

  lemma TransitLines(lines: Table<Line>, items: seq<Item>, officials: seq<Line>, x: Id)
    requires lines.Valid() && (forall l :: l in lines.rows ==> lines.rows[l].dc != x) && forall r :: r in officials ==> r.dc != x
    ensures LinesPlaced(lines.InsertAll(ItemLines(items, x) + officials), items, x, lines.next)
  {
    hide Table.InsertAll, LinesPlaced, LinesOf;
    var rows := ItemLines(items, x) + officials;
    Inserted(lines, rows);
    assert forall k :: |items| <= k < |rows| ==> rows[k] == officials[k - |items|] && rows[k] in officials;
    RowsPlaced(lines, lines.InsertAll(rows), rows, items, x);
  }

  // ---- A new shipment ----

  lemma NewLinesFresh(s: Store)
    requires Linked(s)
    ensures s.lines.Valid() && s.serials.Valid() && Before(s.serials, s.lines.next)
    ensures forall l :: l in s.lines.rows ==> s.lines.rows[l].dc != s.dcs.next
  {
  }

  /** The priced lines and the serials of a new shipment. */
  lemma ItemsPlaced(s: Store, a: Store, sh: Shipment)
    requires var x := s.dcs.next;
      && a.lines == s.lines.InsertAll(ItemLines(sh.items, x) + OfficialLines(sh.consignments, x + 1, |sh.consignments|))
      && a.serials == s.serials.InsertAll(SerialRows(sh.items, sh.project, s.lines.next, |sh.items|))
    requires s.lines.Valid() && s.serials.Valid() && Before(s.serials, s.lines.next)
    requires forall l :: l in s.lines.rows ==> s.lines.rows[l].dc != s.dcs.next
    ensures LinesPlaced(a.lines, sh.items, s.dcs.next, s.lines.next)
    ensures LinesCarry(a.serials, sh.items, s.lines.next, |sh.items|)
  {
    hide Table.InsertAll, LinesPlaced, ItemLines, OfficialLines, SerialRows, Before, LinesCarry;
    var x := s.dcs.next;
    OfficialLinesAddressed(sh.consignments, x + 1, |sh.consignments|);
    TransitLines(s.lines, sh.items, OfficialLines(sh.consignments, x + 1, |sh.consignments|), x);
    ItemsCarried(s.serials, sh.items, sh.project, s.lines.next, |sh.items|);
  }
}
