/** handlers/boq_edit.go: saving a whole bill of quantities, three nested loops from the main items down. */
module BoqUpdate {
  import opened Tables
  import opened BoqCaches
  import opened Boq
  import R = Records

  /** Submitted values by record; for a main item the price is the quoted one. */
  datatype Edits = Edits(mains: map<Id, Edit>, subs: map<Id, Edit>, leaves: map<Id, Edit>)

  function EditOf(edits: map<Id, Edit>, i: Id): Edit {
    if i in edits then edits[i] else Edit(R.None, R.None)
  }

  // ---- What each level becomes ----

  function UpdatedLeaves(leaves: Table<SubSubItem>, edits: Edits, ls: set<Id>): Table<SubSubItem> {
    leaves.(rows := map l | l in leaves.rows ::
      if l in ls then Priced(leaves.rows[l], EditOf(edits.leaves, l)) else leaves.rows[l])
  }

  function UpdatedSub(row: SubItem, e: Edit, prices: seq<real>): SubItem {
    var qty, price := Edited(row.qty, e.qty), Edited(row.price, e.price);
    SubItem(row.main, qty, price, CalcSubItemBudgeted(prices, qty, price))
  }

  function UpdatedMain(row: MainItem, e: Edit, prices: seq<real>): MainItem {
    var qty := Edited(row.qty, e.qty);
    MainItem(row.boq, qty, Edited(row.quoted, e.price),
             if |prices| > 0 then CalcMainItemTotal(CalcMainItemBudgeted(prices, row.budgeted), qty) else row.budgeted)
  }

  /** leaves and subs are l and s with the sub-items ss and everything below them updated. */
  ghost predicate SubsDone(l: Table<SubSubItem>, s: Table<SubItem>, edits: Edits, ss: set<Id>,
                           leaves: Table<SubSubItem>, subs: Table<SubItem>) {
    && leaves == UpdatedLeaves(l, edits, BelowSubs(l, ss))
    && subs.next == s.next && subs.rows.Keys == s.rows.Keys
    && forall i :: i in s.rows ==>
         subs.rows[i] == if i in ss then UpdatedSub(s.rows[i], EditOf(edits.subs, i), ChildBudgets(leaves, i)) else s.rows[i]
  }

  /** mains, subs and leaves are m, s and l with the main items ms and everything below them updated. */
  ghost predicate MainsDone(l: Table<SubSubItem>, s: Table<SubItem>, m: Table<MainItem>, edits: Edits, ms: set<Id>,
                            leaves: Table<SubSubItem>, subs: Table<SubItem>, mains: Table<MainItem>) {
    SubsDone(l, s, edits, SubsOfAll(s, ms), leaves, subs) && RowsDone(m, edits, ms, subs, mains)
  }

  // ---- Steps of the loops ----

  lemma NoLeaves(leaves: Table<SubSubItem>, edits: Edits)
    ensures UpdatedLeaves(leaves, edits, {}) == leaves
  {
    assert UpdatedLeaves(leaves, edits, {}).rows == leaves.rows;
  }

  lemma NextLeaf(leaves: Table<SubSubItem>, edits: Edits, ls: set<Id>, l: Id)
    requires l in leaves.rows && l !in ls
    ensures var u := UpdatedLeaves(leaves, edits, ls);
      u.Update(l, Priced(u.rows[l], EditOf(edits.leaves, l))) == UpdatedLeaves(leaves, edits, ls + {l})
  {
    var u := UpdatedLeaves(leaves, edits, ls);
    assert u.Update(l, Priced(u.rows[l], EditOf(edits.leaves, l))).rows == UpdatedLeaves(leaves, edits, ls + {l}).rows;
  }

  lemma Taken(ids: seq<Id>, i: nat)
    requires i < |ids| && forall j, k :: 0 <= j < k < |ids| ==> ids[j] < ids[k]
    ensures ids[i] !in IdsIn(ids[..i]) && IdsIn(ids[..i + 1]) == IdsIn(ids[..i]) + {ids[i]}
  {
    assert ids[..i + 1] == ids[..i] + [ids[i]];
  }

  lemma SubsUnlisted(l: Table<SubSubItem>, s: Table<SubItem>, edits: Edits)
    ensures SubsDone(l, s, edits, {}, l, s)
  {
    assert BelowSubs(l, {}) == {};
    NoLeaves(l, edits);
  }

  lemma UpdatedTwice(l: Table<SubSubItem>, edits: Edits, ss: set<Id>, x: Id)
    requires x !in ss
    ensures var leaves := UpdatedLeaves(l, edits, BelowSubs(l, ss));
      && SubSubsOf(leaves, x) == SubSubsOf(l, x)
      && UpdatedLeaves(leaves, edits, SubSubsOf(leaves, x)) == UpdatedLeaves(l, edits, BelowSubs(l, ss + {x}))
  {
    var leaves := UpdatedLeaves(l, edits, BelowSubs(l, ss));
    assert UpdatedLeaves(leaves, edits, SubSubsOf(leaves, x)).rows == UpdatedLeaves(l, edits, BelowSubs(l, ss + {x})).rows;
  }

  lemma OtherChildren(leaves: Table<SubSubItem>, edits: Edits, x: Id, t: Id)
    requires t != x
    ensures ChildBudgets(UpdatedLeaves(leaves, edits, SubSubsOf(leaves, x)), t) == ChildBudgets(leaves, t)
  {
    SameChildren(leaves, UpdatedLeaves(leaves, edits, SubSubsOf(leaves, x)), t);
  }

  lemma NextSub(l: Table<SubSubItem>, s: Table<SubItem>, edits: Edits, ss: set<Id>,
                leaves: Table<SubSubItem>, subs: Table<SubItem>, x: Id)
    requires SubsDone(l, s, edits, ss, leaves, subs) && x in s.rows && x !in ss
    ensures var leaves' := UpdatedLeaves(leaves, edits, SubSubsOf(leaves, x));
      SubsDone(l, s, edits, ss + {x}, leaves',
               subs.Update(x, UpdatedSub(subs.rows[x], EditOf(edits.subs, x), ChildBudgets(leaves', x))))
  {
    var leaves' := UpdatedLeaves(leaves, edits, SubSubsOf(leaves, x));
    UpdatedTwice(l, edits, ss, x);
    forall t | t != x
      ensures ChildBudgets(leaves', t) == ChildBudgets(leaves, t)
    {
      OtherChildren(leaves, edits, x, t);
    }
  }

  lemma NextTotal(subs: Table<SubItem>, subs': Table<SubItem>, ids: seq<Id>, i: nat)
    requires i < |ids| && (forall x :: x in ids ==> x in subs.rows && x in subs'.rows)
    requires forall k :: 0 <= k < i ==> subs'.rows[ids[k]].budgeted == subs.rows[ids[k]].budgeted
    ensures SumOf(SubBudgets(subs', ids[..i + 1])) == SumOf(SubBudgets(subs, ids[..i])) + subs'.rows[ids[i]].budgeted
  {
    var all := SubBudgets(subs', ids[..i + 1]);
    assert all[..i] == SubBudgets(subs, ids[..i]);
  }

  // ---- What is stored ----

  /** Quantity and price of record i after the submission: the submitted ones, and the old ones where none was submitted. */
  ghost predicate StoredAs(edits: map<Id, Edit>, i: Id, qty: real, price: real, qty': real, price': real) {
    && qty' == (if i in edits && edits[i].qty.Some? then edits[i].qty.value else qty)
    && price' == (if i in edits && edits[i].price.Some? then edits[i].price.value else price)
  }

  ghost predicate LeavesStored(l: Table<SubSubItem>, edits: Edits, ls: set<Id>, leaves: Table<SubSubItem>) {
    && leaves.next == l.next && leaves.rows.Keys == l.rows.Keys
    && forall i :: i in l.rows ==>
         var row, row' := l.rows[i], leaves.rows[i];
         if i in ls then row'.sub == row.sub && StoredAs(edits.leaves, i, row.qty, row.price, row'.qty, row'.price)
                         && row'.budgeted == row'.qty * row'.price
         else row' == row
  }

  ghost predicate SubsStored(s: Table<SubItem>, edits: Edits, ss: set<Id>, subs: Table<SubItem>) {
    && subs.next == s.next && subs.rows.Keys == s.rows.Keys
    && forall i :: i in s.rows ==>
         var row, row' := s.rows[i], subs.rows[i];
         if i in ss then row'.main == row.main && StoredAs(edits.subs, i, row.qty, row.price, row'.qty, row'.price)
         else row' == row
  }

  ghost predicate MainsStored(m: Table<MainItem>, edits: Edits, ms: set<Id>, subs: Table<SubItem>, mains: Table<MainItem>) {
    && mains.next == m.next && mains.rows.Keys == m.rows.Keys
    && forall i :: i in m.rows ==>
         var row, row' := m.rows[i], mains.rows[i];
         if i in ms then row'.boq == row.boq && StoredAs(edits.mains, i, row.qty, row.quoted, row'.qty, row'.quoted)
                         && (SubsOf(subs, i) == {} ==> row'.budgeted == row.budgeted)
         else row' == row
  }

  /** The submitted values of the main items ms and of everything below them are in the tables; nothing else has changed. */
  ghost predicate EditsStored(l: Table<SubSubItem>, s: Table<SubItem>, m: Table<MainItem>, edits: Edits, ms: set<Id>,
                              leaves: Table<SubSubItem>, subs: Table<SubItem>, mains: Table<MainItem>) {
    && LeavesStored(l, edits, BelowSubs(l, SubsOfAll(s, ms)), leaves)
    && SubsStored(s, edits, SubsOfAll(s, ms), subs) && MainsStored(m, edits, ms, s, mains)
  }

  lemma LeavesAreStored(l: Table<SubSubItem>, edits: Edits, ls: set<Id>)
    ensures LeavesStored(l, edits, ls, UpdatedLeaves(l, edits, ls))
  {
  }

  lemma SubsAreStored(l: Table<SubSubItem>, s: Table<SubItem>, edits: Edits, ss: set<Id>, leaves: Table<SubSubItem>, subs: Table<SubItem>)
    requires SubsDone(l, s, edits, ss, leaves, subs)
    ensures LeavesStored(l, edits, BelowSubs(l, ss), leaves) && SubsStored(s, edits, ss, subs)
  {
    hide SumOf, ChildBudgets, LeavesStored, UpdatedLeaves;
    LeavesAreStored(l, edits, BelowSubs(l, ss));
  }

  lemma DoneIsStored(l: Table<SubSubItem>, s: Table<SubItem>, m: Table<MainItem>, edits: Edits, ms: set<Id>,
                     leaves: Table<SubSubItem>, subs: Table<SubItem>, mains: Table<MainItem>)
    requires MainsDone(l, s, m, edits, ms, leaves, subs, mains)
    ensures EditsStored(l, s, m, edits, ms, leaves, subs, mains)
  {
    hide SumOf, PartBudgets, SubsDone, LeavesStored, SubsStored, BelowSubs, SubsOfAll, SubsOf;
    SubsAreStored(l, s, edits, SubsOfAll(s, ms), leaves, subs);
    forall i
      ensures SubsOf(subs, i) == SubsOf(s, i) && (|PartBudgets(subs, i)| > 0 <==> SubsOf(subs, i) != {})
    {
      MainKept(l, s, edits, SubsOfAll(s, ms), leaves, subs, i);
      PartsCounted(subs, i);
    }
  }

  // ---- The loops ----

  /** One leaf: its fields and its budget. */
  method UpdateLeaf(book: Book, l: Id, e: Edit) returns (budgeted: real)
    requires l in book.leaves.rows
    modifies book`leaves
    ensures book.leaves == old(book.leaves).Update(l, Priced(old(book.leaves).rows[l], e))
    ensures budgeted == book.leaves.rows[l].budgeted
  {
    var row := book.leaves.rows[l];
    var qty, price := Edited(row.qty, e.qty), Edited(row.price, e.price);
    budgeted := qty * price;
    assert SubSubItem(row.sub, qty, price, budgeted) == Priced(row, e);
    book.leaves := book.leaves.Update(l, SubSubItem(row.sub, qty, price, budgeted));
  }

  lemma LeafTotals(leaves: Table<SubSubItem>, edits: Edits, ids: seq<Id>, i: nat)
    requires i < |ids| && (forall l :: l in ids ==> l in leaves.rows) && forall j, k :: 0 <= j < k < |ids| ==> ids[j] < ids[k]
    ensures var u, w := UpdatedLeaves(leaves, edits, IdsIn(ids[..i])), UpdatedLeaves(leaves, edits, IdsIn(ids[..i + 1]));
      SumOf(LeafBudgets(w, ids[..i + 1])) == SumOf(LeafBudgets(u, ids[..i])) + w.rows[ids[i]].budgeted
  {
    var u, w := UpdatedLeaves(leaves, edits, IdsIn(ids[..i])), UpdatedLeaves(leaves, edits, IdsIn(ids[..i + 1]));
    Taken(ids, i);
    forall k | 0 <= k < i
      ensures w.rows[ids[k]] == u.rows[ids[k]]
    {
      assert ids[k] in ids[..i] && ids[k] in ids[..i + 1] && ids[k] in ids;
    }
    assert LeafBudgets(w, ids[..i + 1])[..i] == LeafBudgets(u, ids[..i]);
  }

  /** The first n leaves of a list are done, and their budgets add up to total. */
  ghost predicate LeavesListed(l: Table<SubSubItem>, edits: Edits, ids: seq<Id>, n: nat, leaves: Table<SubSubItem>, total: real) {
    && n <= |ids| && (forall x :: x in ids ==> x in l.rows)
    && leaves == UpdatedLeaves(l, edits, IdsIn(ids[..n])) && total == SumOf(LeafBudgets(leaves, ids[..n]))
  }

  lemma NoneListed(l: Table<SubSubItem>, edits: Edits, ids: seq<Id>)
    requires forall x :: x in ids ==> x in l.rows
    ensures LeavesListed(l, edits, ids, 0, l, 0.0)
  {
    NoLeaves(l, edits);
    assert IdsIn(ids[..0]) == {};
  }

  method UpdateNextLeaf(book: Book, edits: Edits, ids: seq<Id>, i: nat, total: real, ghost l: Table<SubSubItem>) returns (more: real)
    requires i < |ids| && forall j, k :: 0 <= j < k < |ids| ==> ids[j] < ids[k]
    requires LeavesListed(l, edits, ids, i, book.leaves, total)
    modifies book`leaves
    ensures LeavesListed(l, edits, ids, i + 1, book.leaves, more)
  {
    Taken(ids, i);
    assert ids[i] in ids;
    NextLeaf(l, edits, IdsIn(ids[..i]), ids[i]);
    LeafTotals(l, edits, ids, i);
    var budgeted := UpdateLeaf(book, ids[i], EditOf(edits.leaves, ids[i]));
    more := total + budgeted;
  }

  /** The leaves of one sub-item. */
  method UpdateLeaves(book: Book, s: Id, edits: Edits) returns (total: real)
    modifies book`leaves
    ensures book.leaves == UpdatedLeaves(old(book.leaves), edits, SubSubsOf(old(book.leaves), s))
    ensures LeavesStored(old(book.leaves), edits, SubSubsOf(old(book.leaves), s), book.leaves)
    ensures total == SumOf(ChildBudgets(book.leaves, s))
  {
    ghost var leaves := book.leaves;
    var ids := Ascending(SubSubsOf(book.leaves, s));
    total := 0.0;
    NoneListed(leaves, edits, ids);
    for i := 0 to |ids|
      invariant LeavesListed(leaves, edits, ids, i, book.leaves, total)
    {
      total := UpdateNextLeaf(book, edits, ids, i, total, leaves);
    }
    AllLeaves(leaves, edits, s, ids);
    LeavesAreStored(leaves, edits, SubSubsOf(leaves, s));
  }

  lemma AllLeaves(leaves: Table<SubSubItem>, edits: Edits, s: Id, ids: seq<Id>)
    requires ids == Ascending(SubSubsOf(leaves, s))
    ensures ids[..|ids|] == ids && IdsIn(ids) == SubSubsOf(leaves, s)
    ensures var u := UpdatedLeaves(leaves, edits, SubSubsOf(leaves, s)); SubSubsOf(u, s) == SubSubsOf(leaves, s)
  {
  }

  /** One sub-item, after its leaves. */
  method UpdateSub(book: Book, s: Id, edits: Edits) returns (budgeted: real)
    requires s in book.subs.rows
    modifies book`leaves, book`subs
    ensures book.leaves == UpdatedLeaves(old(book.leaves), edits, SubSubsOf(old(book.leaves), s))
    ensures book.subs == old(book.subs).Update(s, UpdatedSub(old(book.subs).rows[s], EditOf(edits.subs, s), ChildBudgets(book.leaves, s)))
    ensures budgeted == book.subs.rows[s].budgeted
  {
    var row, e := book.subs.rows[s], EditOf(edits.subs, s);
    var qty, price := Edited(row.qty, e.qty), Edited(row.price, e.price);
    var total := UpdateLeaves(book, s, edits);
    if |Ascending(SubSubsOf(book.leaves, s))| > 0 {
      budgeted := total;
    } else {
      budgeted := qty * price;
    }
    assert SubItem(row.main, qty, price, budgeted) == UpdatedSub(row, e, ChildBudgets(book.leaves, s));
    book.subs := book.subs.Update(s, SubItem(row.main, qty, price, budgeted));
  }

  /** The sub-items of one main item. */
  method UpdateSubs(book: Book, m: Id, edits: Edits) returns (total: real)
    modifies book`leaves, book`subs
    ensures SubsDone(old(book.leaves), old(book.subs), edits, SubsOf(old(book.subs), m), book.leaves, book.subs)
    ensures LeavesStored(old(book.leaves), edits, BelowSubs(old(book.leaves), SubsOf(old(book.subs), m)), book.leaves)
    ensures SubsStored(old(book.subs), edits, SubsOf(old(book.subs), m), book.subs)
    ensures SubsOf(book.subs, m) == SubsOf(old(book.subs), m) && total == SumOf(PartBudgets(book.subs, m))
  {
    ghost var l, s := book.leaves, book.subs;
    var ids := Ascending(SubsOf(book.subs, m));
    total := 0.0;
    SubsUnlisted(l, s, edits);
    assert IdsIn(ids[..0]) == {};
    for i := 0 to |ids|
      invariant SubsListed(l, s, edits, ids, i, book.leaves, book.subs, total)
    {
      assert ids[i] in ids;
      total := UpdateNextSub(book, edits, ids, i, total, l, s);
    }
    AllSubs(s, book.subs, m, ids);
    SubsAreStored(l, s, edits, SubsOf(s, m), book.leaves, book.subs);
  }

  /** The first n sub-items of a list are done, and their budgets add up to total. */
  ghost predicate SubsListed(l: Table<SubSubItem>, s: Table<SubItem>, edits: Edits, ids: seq<Id>, n: nat,
                             leaves: Table<SubSubItem>, subs: Table<SubItem>, total: real) {
    && n <= |ids| && SubsDone(l, s, edits, IdsIn(ids[..n]), leaves, subs)
    && (forall x :: x in ids ==> x in subs.rows) && total == SumOf(SubBudgets(subs, ids[..n]))
  }

  method UpdateNextSub(book: Book, edits: Edits, ids: seq<Id>, i: nat, total: real, ghost l: Table<SubSubItem>, ghost s: Table<SubItem>)
      returns (more: real)
    requires i < |ids| && forall j, k :: 0 <= j < k < |ids| ==> ids[j] < ids[k]
    requires SubsListed(l, s, edits, ids, i, book.leaves, book.subs, total)
    modifies book`leaves, book`subs
    ensures SubsListed(l, s, edits, ids, i + 1, book.leaves, book.subs, more)
  {
    ghost var leaves, before := book.leaves, book.subs;
    Taken(ids, i);
    assert ids[i] in ids;
    var budgeted := UpdateSub(book, ids[i], edits);
    NextSub(l, s, edits, IdsIn(ids[..i]), leaves, before, ids[i]);
    NextTotal(before, book.subs, ids, i);
    more := total + budgeted;
  }

  lemma AllSubs(s: Table<SubItem>, subs: Table<SubItem>, m: Id, ids: seq<Id>)
    requires ids == Ascending(SubsOf(s, m)) && subs.rows.Keys == s.rows.Keys && forall i :: i in s.rows ==> subs.rows[i].main == s.rows[i].main
    ensures ids[..|ids|] == ids && IdsIn(ids) == SubsOf(s, m) && SubsOf(subs, m) == SubsOf(s, m)
  {
    assert SubsOf(subs, m) == SubsOf(s, m);
  }

  // ---- The main items ----

  lemma LeavesInTurn(l: Table<SubSubItem>, edits: Edits, ss: set<Id>, ts: set<Id>)
    requires ss !! ts
    ensures var leaves := UpdatedLeaves(l, edits, BelowSubs(l, ss));
      UpdatedLeaves(leaves, edits, BelowSubs(leaves, ts)) == UpdatedLeaves(l, edits, BelowSubs(l, ss + ts))
  {
    var leaves := UpdatedLeaves(l, edits, BelowSubs(l, ss));
    assert UpdatedLeaves(leaves, edits, BelowSubs(leaves, ts)).rows == UpdatedLeaves(l, edits, BelowSubs(l, ss + ts)).rows;
  }

  lemma UntouchedChildren(leaves: Table<SubSubItem>, edits: Edits, ts: set<Id>, t: Id)
    requires t !in ts
    ensures ChildBudgets(UpdatedLeaves(leaves, edits, BelowSubs(leaves, ts)), t) == ChildBudgets(leaves, t)
  {
    SameChildren(leaves, UpdatedLeaves(leaves, edits, BelowSubs(leaves, ts)), t);
  }

  /** Updating one set of sub-items and then another is updating both. */
  lemma SubsInTurn(l: Table<SubSubItem>, s: Table<SubItem>, edits: Edits, ss: set<Id>, ts: set<Id>,
                   leaves: Table<SubSubItem>, subs: Table<SubItem>, leaves': Table<SubSubItem>, subs': Table<SubItem>)
    requires SubsDone(l, s, edits, ss, leaves, subs) && SubsDone(leaves, subs, edits, ts, leaves', subs') && ss !! ts
    ensures SubsDone(l, s, edits, ss + ts, leaves', subs')
  {
    LeavesInTurn(l, edits, ss, ts);
    forall i | i in s.rows
      ensures subs'.rows[i] == if i in ss + ts then UpdatedSub(s.rows[i], EditOf(edits.subs, i), ChildBudgets(leaves', i)) else s.rows[i]
    {
      if i !in ts {
        UntouchedChildren(leaves, edits, ts, i);
      }
    }
  }

  lemma MainKept(l: Table<SubSubItem>, s: Table<SubItem>, edits: Edits, ss: set<Id>, leaves: Table<SubSubItem>, subs: Table<SubItem>, m: Id)
    requires SubsDone(l, s, edits, ss, leaves, subs)
    ensures SubsOf(subs, m) == SubsOf(s, m)
  {
    forall i | i in s.rows
      ensures subs.rows[i].main == s.rows[i].main
    {
    }
  }

  lemma OtherParts(l: Table<SubSubItem>, s: Table<SubItem>, edits: Edits, ss: set<Id>, leaves: Table<SubSubItem>, subs: Table<SubItem>, n: Id)
    requires SubsDone(l, s, edits, ss, leaves, subs) && SubsOf(s, n) !! ss
    ensures PartBudgets(subs, n) == PartBudgets(s, n)
  {
    MainKept(l, s, edits, ss, leaves, subs, n);
    SameParts(s, subs, n);
  }

  lemma MainsUnlisted(l: Table<SubSubItem>, s: Table<SubItem>, m: Table<MainItem>, edits: Edits)
    ensures MainsDone(l, s, m, edits, {}, l, s, m)
  {
    assert SubsOfAll(s, {}) == {};
    SubsUnlisted(l, s, edits);
  }

  lemma NextMainSubs(l: Table<SubSubItem>, s: Table<SubItem>, edits: Edits, ms: set<Id>,
                     leaves: Table<SubSubItem>, subs: Table<SubItem>, x: Id, leaves': Table<SubSubItem>, subs': Table<SubItem>)
    requires SubsDone(l, s, edits, SubsOfAll(s, ms), leaves, subs) && x !in ms
    requires SubsDone(leaves, subs, edits, SubsOf(subs, x), leaves', subs')
    ensures SubsDone(l, s, edits, SubsOfAll(s, ms + {x}), leaves', subs')
    ensures forall n :: n in ms ==> PartBudgets(subs', n) == PartBudgets(subs, n)
  {
    MainKept(l, s, edits, SubsOfAll(s, ms), leaves, subs, x);
    assert SubsOfAll(s, ms + {x}) == SubsOfAll(s, ms) + SubsOf(s, x);
    SubsInTurn(l, s, edits, SubsOfAll(s, ms), SubsOf(s, x), leaves, subs, leaves', subs');
    forall n | n in ms
      ensures PartBudgets(subs', n) == PartBudgets(subs, n)
    {
      OtherParts(leaves, subs, edits, SubsOf(subs, x), leaves', subs', n);
    }
  }

  /** The main items ms are updated with the budgets of subs. */
  ghost predicate RowsDone(m: Table<MainItem>, edits: Edits, ms: set<Id>, subs: Table<SubItem>, mains: Table<MainItem>) {
    && mains.next == m.next && mains.rows.Keys == m.rows.Keys
    && forall i :: i in m.rows ==>
         mains.rows[i] == if i in ms then UpdatedMain(m.rows[i], EditOf(edits.mains, i), PartBudgets(subs, i)) else m.rows[i]
  }

  lemma NextMainRow(m: Table<MainItem>, edits: Edits, ms: set<Id>, subs: Table<SubItem>, mains: Table<MainItem>, x: Id, subs': Table<SubItem>)
    requires RowsDone(m, edits, ms, subs, mains) && x in m.rows && x !in ms
    requires forall n :: n in ms ==> PartBudgets(subs', n) == PartBudgets(subs, n)
    ensures RowsDone(m, edits, ms + {x}, subs', mains.Update(x, UpdatedMain(mains.rows[x], EditOf(edits.mains, x), PartBudgets(subs', x))))
  {
  }

  lemma UpdatedMainRow(row: MainItem, e: Edit, subs: Table<SubItem>, m: Id, total: real, budgeted: real)
    requires total == SumOf(PartBudgets(subs, m))
    requires budgeted == if SubsOf(subs, m) != {} then total * Edited(row.qty, e.qty) else row.budgeted
    ensures MainItem(row.boq, Edited(row.qty, e.qty), Edited(row.quoted, e.price), budgeted) == UpdatedMain(row, e, PartBudgets(subs, m))
  {
  }

  /** One main item, after its sub-items. */
  method UpdateMain(book: Book, m: Id, edits: Edits)
    requires m in book.mains.rows
    modifies book
    ensures SubsDone(old(book.leaves), old(book.subs), edits, SubsOf(old(book.subs), m), book.leaves, book.subs)
    ensures book.mains == old(book.mains).Update(m, UpdatedMain(old(book.mains).rows[m], EditOf(edits.mains, m), PartBudgets(book.subs, m)))
    ensures var row, row' := old(book.mains).rows[m], book.mains.rows[m];
      StoredAs(edits.mains, m, row.qty, row.quoted, row'.qty, row'.quoted)
  {
    var total := UpdateSubs(book, m, edits);
    FinishMain(book, m, EditOf(edits.mains, m), total);
  }

  method FinishMain(book: Book, m: Id, e: Edit, total: real)
    requires m in book.mains.rows && total == SumOf(PartBudgets(book.subs, m))
    modifies book`mains
    ensures book.mains == old(book.mains).Update(m, UpdatedMain(old(book.mains).rows[m], e, PartBudgets(book.subs, m)))
  {
    var row := book.mains.rows[m];
    var qty, budgeted := Edited(row.qty, e.qty), row.budgeted;
    if SubsOf(book.subs, m) != {} {
      budgeted := total * qty;
    }
    UpdatedMainRow(row, e, book.subs, m, total, budgeted);
    book.mains := book.mains.Update(m, MainItem(row.boq, qty, Edited(row.quoted, e.price), budgeted));
  }

  function MainsOf(mains: Table<MainItem>, boq: Id): set<Id> {
    set m | m in mains.rows && mains.rows[m].boq == boq
  }

  /** HandleBOQUpdate: whatever the caches were, every budget of the bill is rolled up afresh;
      other bills stay as they are, and stay rolled up if they were. */
  method HandleBOQUpdate(book: Book, boq: Id, edits: Edits)
    modifies book
    ensures MainsDone(old(book.leaves), old(book.subs), old(book.mains), edits, MainsOf(old(book.mains), boq),
                      book.leaves, book.subs, book.mains)
    ensures EditsStored(old(book.leaves), old(book.subs), old(book.mains), edits, MainsOf(old(book.mains), boq),
                        book.leaves, book.subs, book.mains)
    ensures BillRolledUp(book.mains, book.subs, book.leaves, MainsOf(old(book.mains), boq))
    ensures forall m :: m in MainsOf(old(book.mains), boq) && SubsOf(book.subs, m) != {} ==>
      m in book.mains.rows && IsFold(book.mains, book.subs, book.leaves, m)
    ensures old(RolledUp(book.mains, book.subs, book.leaves)) ==> RolledUp(book.mains, book.subs, book.leaves)
    ensures old(Nested(book.mains, book.subs, book.leaves)) ==> Nested(book.mains, book.subs, book.leaves)
  {
    ghost var l, s, m := book.leaves, book.subs, book.mains;
    var ids := Ascending(MainsOf(book.mains, boq));
    MainsUnlisted(l, s, m, edits);
    assert IdsIn(ids[..0]) == {};
    for i := 0 to |ids|
      invariant MainsDone(l, s, m, edits, IdsIn(ids[..i]), book.leaves, book.subs, book.mains)
    {
      assert ids[i] in ids;
      UpdateNextMain(book, edits, ids, i, l, s, m);
    }
    assert ids[..|ids|] == ids && IdsIn(ids) == MainsOf(m, boq);
    DoneIsRolledUp(l, s, m, edits, MainsOf(m, boq), book.leaves, book.subs, book.mains);
    DoneIsFolded(l, s, m, edits, MainsOf(m, boq), book.leaves, book.subs, book.mains);
    DoneIsNested(l, s, m, edits, MainsOf(m, boq), book.leaves, book.subs, book.mains);
    DoneIsStored(l, s, m, edits, MainsOf(m, boq), book.leaves, book.subs, book.mains);
  }

  method UpdateNextMain(book: Book, edits: Edits, ids: seq<Id>, i: nat, ghost l: Table<SubSubItem>, ghost s: Table<SubItem>, ghost m: Table<MainItem>)
    requires i < |ids| && (forall j, k :: 0 <= j < k < |ids| ==> ids[j] < ids[k]) && ids[i] in m.rows
    requires MainsDone(l, s, m, edits, IdsIn(ids[..i]), book.leaves, book.subs, book.mains)
    modifies book
    ensures MainsDone(l, s, m, edits, IdsIn(ids[..i + 1]), book.leaves, book.subs, book.mains)
  {
    ghost var leaves, subs, mains := book.leaves, book.subs, book.mains;
    Taken(ids, i);
    UpdateMain(book, ids[i], edits);
    NextMainSubs(l, s, edits, IdsIn(ids[..i]), leaves, subs, ids[i], book.leaves, book.subs);
    NextMainRow(m, edits, IdsIn(ids[..i]), subs, mains, ids[i], book.subs);
  }

  // ---- What the update establishes ----

  lemma DoneMains(l: Table<SubSubItem>, s: Table<SubItem>, m: Table<MainItem>, edits: Edits, ms: set<Id>,
                  leaves: Table<SubSubItem>, subs: Table<SubItem>, mains: Table<MainItem>)
    requires MainsDone(l, s, m, edits, ms, leaves, subs, mains)
    ensures forall i :: i in ms && i in mains.rows ==> MainOk(mains.rows[i], PartBudgets(subs, i))
  {
  }

  lemma SameMembers(l: Table<SubSubItem>, s: Table<SubItem>, edits: Edits, ms: set<Id>, leaves: Table<SubSubItem>, subs: Table<SubItem>)
    requires SubsDone(l, s, edits, SubsOfAll(s, ms), leaves, subs)
    ensures SubsOfAll(subs, ms) == SubsOfAll(s, ms) && BelowSubs(leaves, SubsOfAll(s, ms)) == BelowSubs(l, SubsOfAll(s, ms))
  {
    forall i | i in s.rows
      ensures subs.rows[i].main == s.rows[i].main
    {
    }
  }

  lemma DoneSubs(l: Table<SubSubItem>, s: Table<SubItem>, edits: Edits, ss: set<Id>, leaves: Table<SubSubItem>, subs: Table<SubItem>)
    requires SubsDone(l, s, edits, ss, leaves, subs)
    ensures forall i :: i in ss && i in subs.rows ==> SubOk(subs.rows[i], ChildBudgets(leaves, i))
    ensures forall i :: i in BelowSubs(l, ss) ==> i in leaves.rows && LeafOk(leaves.rows[i])
  {
  }

  /** Records outside the bill keep their values, so they stay rolled up if they were. */
  lemma OthersStay(l: Table<SubSubItem>, s: Table<SubItem>, m: Table<MainItem>, edits: Edits, ms: set<Id>,
                   leaves: Table<SubSubItem>, subs: Table<SubItem>, mains: Table<MainItem>)
    requires MainsDone(l, s, m, edits, ms, leaves, subs, mains) && RolledUp(m, s, l)
    ensures forall i :: i in subs.rows && i !in SubsOfAll(s, ms) ==> SubOk(subs.rows[i], ChildBudgets(leaves, i))
    ensures forall i :: i in mains.rows && i !in ms ==> MainOk(mains.rows[i], PartBudgets(subs, i))
  {
    var ss := SubsOfAll(s, ms);
    forall i | i in subs.rows && i !in ss
      ensures SubOk(subs.rows[i], ChildBudgets(leaves, i))
    {
      UntouchedChildren(l, edits, ss, i);
    }
    forall i | i in mains.rows && i !in ms
      ensures MainOk(mains.rows[i], PartBudgets(subs, i))
    {
      OtherParts(l, s, edits, ss, leaves, subs, i);
    }
  }

  lemma DoneIsRolledUp(l: Table<SubSubItem>, s: Table<SubItem>, m: Table<MainItem>, edits: Edits, ms: set<Id>,
                       leaves: Table<SubSubItem>, subs: Table<SubItem>, mains: Table<MainItem>)
    requires MainsDone(l, s, m, edits, ms, leaves, subs, mains)
    ensures BillRolledUp(mains, subs, leaves, ms)
    ensures RolledUp(m, s, l) ==> RolledUp(mains, subs, leaves)
  {
    SameMembers(l, s, edits, ms, leaves, subs);
    DoneMains(l, s, m, edits, ms, leaves, subs, mains);
    DoneSubs(l, s, edits, SubsOfAll(s, ms), leaves, subs);
    if RolledUp(m, s, l) {
      OthersStay(l, s, m, edits, ms, leaves, subs, mains);
    }
  }

  lemma DoneIsFolded(l: Table<SubSubItem>, s: Table<SubItem>, m: Table<MainItem>, edits: Edits, ms: set<Id>,
                     leaves: Table<SubSubItem>, subs: Table<SubItem>, mains: Table<MainItem>)
    requires MainsDone(l, s, m, edits, ms, leaves, subs, mains) && ms <= m.rows.Keys && BillRolledUp(mains, subs, leaves, ms)
    ensures forall i :: i in ms && SubsOf(subs, i) != {} ==> i in mains.rows && IsFold(mains, subs, leaves, i)
  {
    hide BillRolledUp, SubsDone, IsFold, SubsOf;
    forall i | i in ms && SubsOf(subs, i) != {}
      ensures i in mains.rows && IsFold(mains, subs, leaves, i)
    {
      RolledUpIsFold(mains, subs, leaves, ms, i);
    }
  }

  /** The update adds and removes nothing, and moves nothing to another parent. */
  lemma DoneIsNested(l: Table<SubSubItem>, s: Table<SubItem>, m: Table<MainItem>, edits: Edits, ms: set<Id>,
                     leaves: Table<SubSubItem>, subs: Table<SubItem>, mains: Table<MainItem>)
    requires MainsDone(l, s, m, edits, ms, leaves, subs, mains)
    ensures Nested(m, s, l) ==> Nested(mains, subs, leaves)
  {
    hide ChildBudgets, PartBudgets, BelowSubs;
  }
}
