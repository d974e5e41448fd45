/** services/pricing.go: a bill of quantities of three levels whose upper levels cache budgets
    rolled up from below, and what keeps the caches right. */
module BoqCaches {
  import opened Tables
  import R = Records

  datatype MainItem = MainItem(boq: Id, qty: real, quoted: real, budgeted: real)

  datatype SubItem = SubItem(main: Id, qty: real, price: real, budgeted: real)

  datatype SubSubItem = SubSubItem(sub: Id, qty: real, price: real, budgeted: real)

  // ---- The pricing functions ----

  function SumOf(prices: seq<real>): real {
    if prices == [] then 0.0 else SumOf(prices[..|prices| - 1]) + prices[|prices| - 1]
  }

  function CalcSubSubItemBudgeted(qty: real, price: real): real {
    qty * price
  }

  function CalcSubItemBudgeted(prices: seq<real>, qty: real, price: real): real {
    if |prices| > 0 then SumOf(prices) else qty * price
  }

  function CalcMainItemBudgeted(prices: seq<real>, manual: real): real {
    if |prices| > 0 then SumOf(prices) else manual
  }

  function CalcMainItemTotal(budgeted: real, qty: real): real {
    budgeted * qty
  }

  // ---- Children, oldest first ----

  function SubSubsOf(leaves: Table<SubSubItem>, sub: Id): set<Id> {
    set l | l in leaves.rows && leaves.rows[l].sub == sub
  }

  function SubsOf(subs: Table<SubItem>, main: Id): set<Id> {
    set s | s in subs.rows && subs.rows[s].main == main
  }

  function LeafBudgets(leaves: Table<SubSubItem>, ids: seq<Id>): seq<real>
    requires forall l :: l in ids ==> l in leaves.rows
  {
    seq(|ids|, i requires 0 <= i < |ids| => leaves.rows[ids[i]].budgeted)
  }

  function SubBudgets(subs: Table<SubItem>, ids: seq<Id>): seq<real>
    requires forall s :: s in ids ==> s in subs.rows
  {
    seq(|ids|, i requires 0 <= i < |ids| => subs.rows[ids[i]].budgeted)
  }

  function ChildBudgets(leaves: Table<SubSubItem>, sub: Id): seq<real> {
    LeafBudgets(leaves, Ascending(SubSubsOf(leaves, sub)))
  }

  function PartBudgets(subs: Table<SubItem>, main: Id): seq<real> {
    SubBudgets(subs, Ascending(SubsOf(subs, main)))
  }

  // ---- Rolled-up caches ----

  predicate LeafOk(l: SubSubItem) {
    l.budgeted == CalcSubSubItemBudgeted(l.qty, l.price)
  }

  predicate SubOk(s: SubItem, prices: seq<real>) {
    s.budgeted == CalcSubItemBudgeted(prices, s.qty, s.price)
  }

  /** A main item without sub-items keeps whatever budget it was given. */
  predicate MainOk(m: MainItem, prices: seq<real>) {
    |prices| > 0 ==> m.budgeted == CalcMainItemTotal(CalcMainItemBudgeted(prices, m.budgeted), m.qty)
  }

  ghost predicate LeavesOk(leaves: Table<SubSubItem>) {
    forall l :: l in leaves.rows ==> LeafOk(leaves.rows[l])
  }

  ghost predicate SubsOk(subs: Table<SubItem>, leaves: Table<SubSubItem>) {
    forall s :: s in subs.rows ==> SubOk(subs.rows[s], ChildBudgets(leaves, s))
  }

  ghost predicate MainsOk(mains: Table<MainItem>, subs: Table<SubItem>) {
    forall m :: m in mains.rows ==> MainOk(mains.rows[m], PartBudgets(subs, m))
  }

  /** Every cached budget is what the pricing functions make of the level below. */
  ghost predicate RolledUp(mains: Table<MainItem>, subs: Table<SubItem>, leaves: Table<SubSubItem>) {
    LeavesOk(leaves) && SubsOk(subs, leaves) && MainsOk(mains, subs)
  }

  function BelowSubs(leaves: Table<SubSubItem>, subs: set<Id>): set<Id> {
    set l | l in leaves.rows && leaves.rows[l].sub in subs
  }

  function SubsOfAll(subs: Table<SubItem>, ms: set<Id>): set<Id> {
    set s | s in subs.rows && subs.rows[s].main in ms
  }

  /** Every budget of the main items ms and of everything below them is rolled up. */
  ghost predicate BillRolledUp(mains: Table<MainItem>, subs: Table<SubItem>, leaves: Table<SubSubItem>, ms: set<Id>) {
    && (forall l :: l in BelowSubs(leaves, SubsOfAll(subs, ms)) ==> LeafOk(leaves.rows[l]))
    && (forall s :: s in SubsOfAll(subs, ms) ==> SubOk(subs.rows[s], ChildBudgets(leaves, s)))
    && (forall m :: m in ms && m in mains.rows ==> MainOk(mains.rows[m], PartBudgets(subs, m)))
  }

  // ---- The plain fold from the leaves ----

  function LeafPrices(leaves: Table<SubSubItem>, ids: seq<Id>): seq<real>
    requires forall l :: l in ids ==> l in leaves.rows
  {
    seq(|ids|, i requires 0 <= i < |ids| => leaves.rows[ids[i]].qty * leaves.rows[ids[i]].price)
  }

  /** A sub-item's budget from quantities and prices only. */
  function FoldSub(leaves: Table<SubSubItem>, s: Id, row: SubItem): real {
    if SubSubsOf(leaves, s) == {} then row.qty * row.price else SumOf(LeafPrices(leaves, Ascending(SubSubsOf(leaves, s))))
  }

  function FoldedParts(subs: Table<SubItem>, leaves: Table<SubSubItem>, ids: seq<Id>): seq<real>
    requires forall s :: s in ids ==> s in subs.rows
  {
    seq(|ids|, i requires 0 <= i < |ids| => FoldSub(leaves, ids[i], subs.rows[ids[i]]))
  }

  lemma BudgetsArePrices(leaves: Table<SubSubItem>, ids: seq<Id>)
    requires forall l :: l in ids ==> l in leaves.rows && LeafOk(leaves.rows[l])
    ensures LeafBudgets(leaves, ids) == LeafPrices(leaves, ids)
  {
    forall i | 0 <= i < |ids|
      ensures LeafBudgets(leaves, ids)[i] == LeafPrices(leaves, ids)[i]
    {
      assert ids[i] in ids;
    }
  }

  /** Sub-item s and its children are rolled up. */
  ghost predicate SubRolledUp(subs: Table<SubItem>, leaves: Table<SubSubItem>, s: Id) {
    && s in subs.rows && SubOk(subs.rows[s], ChildBudgets(leaves, s))
    && forall l :: l in SubSubsOf(leaves, s) ==> LeafOk(leaves.rows[l])
  }

  lemma RolledUpSub(subs: Table<SubItem>, leaves: Table<SubSubItem>, s: Id)
    requires SubRolledUp(subs, leaves, s)
    ensures subs.rows[s].budgeted == FoldSub(leaves, s, subs.rows[s])
  {
    hide SumOf, LeafBudgets, LeafPrices, LeafOk;
    ChildrenCounted(leaves, s);
    BudgetsArePrices(leaves, Ascending(SubSubsOf(leaves, s)));
  }

  lemma PartsAreFolded(subs: Table<SubItem>, leaves: Table<SubSubItem>, ids: seq<Id>)
    requires forall s :: s in ids ==> s in subs.rows && subs.rows[s].budgeted == FoldSub(leaves, s, subs.rows[s])
    ensures SubBudgets(subs, ids) == FoldedParts(subs, leaves, ids)
  {
  }

  lemma FoldedFromBelow(subs: Table<SubItem>, leaves: Table<SubSubItem>, m: Id)
    requires forall s :: s in SubsOf(subs, m) ==> SubRolledUp(subs, leaves, s)
    ensures PartBudgets(subs, m) == FoldedParts(subs, leaves, Ascending(SubsOf(subs, m)))
  {
    hide SubRolledUp, FoldSub;
    var ids := Ascending(SubsOf(subs, m));
    forall s | s in ids
      ensures s in subs.rows && subs.rows[s].budgeted == FoldSub(leaves, s, subs.rows[s])
    {
      RolledUpSub(subs, leaves, s);
    }
    PartsAreFolded(subs, leaves, ids);
  }

  lemma BillSubsRolledUp(mains: Table<MainItem>, subs: Table<SubItem>, leaves: Table<SubSubItem>, ms: set<Id>, m: Id)
    requires BillRolledUp(mains, subs, leaves, ms) && m in ms
    ensures forall s :: s in SubsOf(subs, m) ==> SubRolledUp(subs, leaves, s)
  {
    hide SubOk, LeafOk, ChildBudgets;
    forall s | s in SubsOf(subs, m)
      ensures SubRolledUp(subs, leaves, s)
    {
      assert s in SubsOfAll(subs, ms);
      assert forall l :: l in SubSubsOf(leaves, s) ==> l in BelowSubs(leaves, SubsOfAll(subs, ms));
    }
  }

  lemma PartsCounted(subs: Table<SubItem>, m: Id)
    ensures |PartBudgets(subs, m)| > 0 <==> SubsOf(subs, m) != {}
  {
    assert |Ascending(SubsOf(subs, m))| == |SubsOf(subs, m)|;
  }

  /** The budget of main item m is its quantity times the plain fold from its leaves. */
  ghost predicate IsFold(mains: Table<MainItem>, subs: Table<SubItem>, leaves: Table<SubSubItem>, m: Id)
    requires m in mains.rows
  {
    mains.rows[m].budgeted == SumOf(FoldedParts(subs, leaves, Ascending(SubsOf(subs, m)))) * mains.rows[m].qty
  }

  /** In a rolled-up bill every main item with sub-items costs its quantity times the plain fold from the leaves,
      whatever the other bills of the book look like. */
  lemma RolledUpIsFold(mains: Table<MainItem>, subs: Table<SubItem>, leaves: Table<SubSubItem>, ms: set<Id>, m: Id)
    requires BillRolledUp(mains, subs, leaves, ms) && m in ms && m in mains.rows && SubsOf(subs, m) != {}
    ensures IsFold(mains, subs, leaves, m)
  {
    BillSubsRolledUp(mains, subs, leaves, ms, m);
    FoldedMain(mains, subs, leaves, m);
  }

  lemma FoldedMain(mains: Table<MainItem>, subs: Table<SubItem>, leaves: Table<SubSubItem>, m: Id)
    requires m in mains.rows && MainOk(mains.rows[m], PartBudgets(subs, m)) && SubsOf(subs, m) != {}
    requires forall s :: s in SubsOf(subs, m) ==> SubRolledUp(subs, leaves, s)
    ensures IsFold(mains, subs, leaves, m)
  {
    hide SumOf, FoldedParts, PartBudgets, SubRolledUp, MainOk, SubsOf, Ascending;
    PartsCounted(subs, m);
    FoldedFromBelow(subs, leaves, m);
    MainCosts(mains.rows[m], PartBudgets(subs, m));
  }

  lemma MainCosts(m: MainItem, prices: seq<real>)
    requires MainOk(m, prices) && |prices| > 0
    ensures m.budgeted == SumOf(prices) * m.qty
  {
  }

  // ---- Recalculation ----

  function Recalculated(subs: Table<SubItem>, leaves: Table<SubSubItem>, s: Id): Table<SubItem> {
    if s !in subs.rows then subs else
      var row := subs.rows[s];
      subs.Update(s, row.(budgeted := CalcSubItemBudgeted(ChildBudgets(leaves, s), row.qty, row.price)))
  }

  function RecalculatedMain(mains: Table<MainItem>, subs: Table<SubItem>, m: Id): Table<MainItem> {
    if m !in mains.rows || SubsOf(subs, m) == {} then mains else
      var row := mains.rows[m];
      mains.Update(m, row.(budgeted := CalcMainItemTotal(CalcMainItemBudgeted(PartBudgets(subs, m), row.budgeted), row.qty)))
  }

  /** Recalculating a sub-item that is rolled up already changes nothing. */
  lemma RecalculatedSame(mains: Table<MainItem>, subs: Table<SubItem>, leaves: Table<SubSubItem>, s: Id)
    ensures RolledUp(mains, subs, leaves) ==> Recalculated(subs, leaves, s) == subs
    ensures var after := Recalculated(subs, leaves, s);
      after.rows.Keys == subs.rows.Keys
      && forall t :: t in subs.rows ==> after.rows[t].qty == subs.rows[t].qty && after.rows[t].price == subs.rows[t].price
  {
    if s in subs.rows && SubsOk(subs, leaves) {
      assert subs.rows[s].(budgeted := CalcSubItemBudgeted(ChildBudgets(leaves, s), subs.rows[s].qty, subs.rows[s].price)) == subs.rows[s];
      assert Recalculated(subs, leaves, s).rows == subs.rows;
    }
  }

  lemma TotalOfParts(row: MainItem, subs: Table<SubItem>, m: Id, total: real)
    requires SubsOf(subs, m) != {} && total == SumOf(PartBudgets(subs, m))
    ensures total * row.qty == CalcMainItemTotal(CalcMainItemBudgeted(PartBudgets(subs, m), row.budgeted), row.qty)
  {
  }

  lemma SumMore(prices: seq<real>, i: nat)
    requires i < |prices|
    ensures SumOf(prices[..i + 1]) == SumOf(prices[..i]) + prices[i]
  {
    assert prices[..i + 1][..i] == prices[..i];
  }

  datatype Edit = Edit(qty: R.Option<real>, price: R.Option<real>)

  function Edited(before: real, change: R.Option<real>): real {
    if change.Some? then change.value else before
  }

  function Priced(row: SubSubItem, edit: Edit): SubSubItem {
    var qty, price := Edited(row.qty, edit.qty), Edited(row.price, edit.price);
    SubSubItem(row.sub, qty, price, CalcSubSubItemBudgeted(qty, price))
  }

  function PatchedMain(mains: Table<MainItem>, m: Id, qty: R.Option<real>, quoted: R.Option<real>, budgeted: R.Option<real>): Table<MainItem> {
    if m !in mains.rows then mains else
      var row := mains.rows[m];
      mains.Update(m, MainItem(row.boq, Edited(row.qty, qty), Edited(row.quoted, quoted), Edited(row.budgeted, budgeted)))
  }

  function NewSub(m: Id): SubItem {
    SubItem(m, 1.0, 1.0, 1.0)
  }

  function NewSubSub(s: Id): SubSubItem {
    SubSubItem(s, 1.0, 1.0, 1.0)
  }

  // ---- What keeps the caches rolled up ----

  lemma ChildrenCounted(leaves: Table<SubSubItem>, s: Id)
    ensures |ChildBudgets(leaves, s)| == 0 <==> SubSubsOf(leaves, s) == {}
  {
  }

  lemma SameChildren(leaves: Table<SubSubItem>, after: Table<SubSubItem>, s: Id)
    requires SubSubsOf(after, s) == SubSubsOf(leaves, s)
    requires forall l :: l in SubSubsOf(leaves, s) ==> after.rows[l].budgeted == leaves.rows[l].budgeted
    ensures ChildBudgets(after, s) == ChildBudgets(leaves, s)
  {
    var ids := Ascending(SubSubsOf(leaves, s));
    assert forall i :: 0 <= i < |ids| ==> ids[i] in ids;
    assert LeafBudgets(after, ids) == LeafBudgets(leaves, ids);
  }

  lemma SameParts(subs: Table<SubItem>, after: Table<SubItem>, m: Id)
    requires SubsOf(after, m) == SubsOf(subs, m)
    requires forall s :: s in SubsOf(subs, m) ==> after.rows[s].budgeted == subs.rows[s].budgeted
    ensures PartBudgets(after, m) == PartBudgets(subs, m)
  {
    var ids := Ascending(SubsOf(subs, m));
    assert forall i :: 0 <= i < |ids| ==> ids[i] in ids;
    assert SubBudgets(after, ids) == SubBudgets(subs, ids);
  }

  ghost predicate ChildrenKept(leaves: Table<SubSubItem>, leaves': Table<SubSubItem>, s: Id) {
    && SubSubsOf(leaves', s) == SubSubsOf(leaves, s)
    && forall l :: l in SubSubsOf(leaves, s) ==> l in leaves'.rows && leaves'.rows[l] == leaves.rows[l]
  }

  ghost predicate PartsKept(subs: Table<SubItem>, subs': Table<SubItem>, m: Id) {
    && SubsOf(subs', m) == SubsOf(subs, m)
    && forall s :: s in SubsOf(subs, m) ==> s in subs'.rows && subs'.rows[s] == subs.rows[s]
  }

  /** Sub-items that keep their row and their children stay rolled up. */
  lemma SubsStayOk(subs: Table<SubItem>, leaves: Table<SubSubItem>, subs': Table<SubItem>, leaves': Table<SubSubItem>, kept: set<Id>)
    requires SubsOk(subs, leaves)
    requires forall t :: t in kept ==> t in subs.rows && t in subs'.rows && subs'.rows[t] == subs.rows[t]
    requires forall t :: t in kept ==> ChildrenKept(leaves, leaves', t)
    ensures forall t :: t in kept ==> SubOk(subs'.rows[t], ChildBudgets(leaves', t))
  {
    forall t | t in kept
      ensures SubOk(subs'.rows[t], ChildBudgets(leaves', t))
    {
      SameChildren(leaves, leaves', t);
    }
  }

  /** Main items whose sub-items stay as they are stay rolled up. */
  lemma MainsStayOk(mains: Table<MainItem>, subs: Table<SubItem>, subs': Table<SubItem>, kept: set<Id>)
    requires MainsOk(mains, subs) && kept <= mains.rows.Keys
    requires forall n :: n in kept ==> PartsKept(subs, subs', n)
    ensures forall n :: n in kept ==> MainOk(mains.rows[n], PartBudgets(subs', n))
  {
    forall n | n in kept
      ensures MainOk(mains.rows[n], PartBudgets(subs', n))
    {
      SameParts(subs, subs', n);
    }
  }

  lemma SubsDeletedElsewhere(subs: Table<SubItem>, gone: set<Id>, n: Id)
    requires SubsOf(subs, n) !! gone
    ensures PartsKept(subs, subs.Delete(gone), n)
  {
  }

  lemma LeavesDeletedElsewhere(leaves: Table<SubSubItem>, gone: set<Id>, t: Id)
    requires SubSubsOf(leaves, t) !! gone
    ensures ChildrenKept(leaves, leaves.Delete(gone), t)
  {
  }

  lemma DeleteMainKeeps(mains: Table<MainItem>, subs: Table<SubItem>, leaves: Table<SubSubItem>, m: Id)
    ensures RolledUp(mains, subs, leaves) ==>
      RolledUp(mains.Delete({m}), subs.Delete(SubsOf(subs, m)), leaves.Delete(BelowSubs(leaves, SubsOf(subs, m))))
  {
    if RolledUp(mains, subs, leaves) {
      var subs', leaves' := subs.Delete(SubsOf(subs, m)), leaves.Delete(BelowSubs(leaves, SubsOf(subs, m)));
      forall t | t in subs'.rows
        ensures ChildrenKept(leaves, leaves', t)
      {
        LeavesDeletedElsewhere(leaves, BelowSubs(leaves, SubsOf(subs, m)), t);
      }
      forall n | n in mains.rows.Keys - {m}
        ensures PartsKept(subs, subs', n)
      {
        SubsDeletedElsewhere(subs, SubsOf(subs, m), n);
      }
      SubsStayOk(subs, leaves, subs', leaves', subs'.rows.Keys);
      MainsStayOk(mains, subs, subs', mains.rows.Keys - {m});
    }
  }

  /** After recalculating m, the mains are rolled up if all the others were. */
  lemma RecalcMainRolls(mains: Table<MainItem>, subs: Table<SubItem>, m: Id)
    requires forall n :: n in mains.rows && n != m ==> MainOk(mains.rows[n], PartBudgets(subs, n))
    ensures MainsOk(RecalculatedMain(mains, subs, m), subs)
  {
  }

  lemma DeleteSubKeeps(mains: Table<MainItem>, subs: Table<SubItem>, leaves: Table<SubSubItem>, s: Id)
    requires s in subs.rows
    ensures RolledUp(mains, subs, leaves) ==>
      var subs' := subs.Delete({s});
      RolledUp(RecalculatedMain(mains, subs', subs.rows[s].main), subs', leaves.Delete(SubSubsOf(leaves, s)))
  {
    if RolledUp(mains, subs, leaves) {
      var m, subs', leaves' := subs.rows[s].main, subs.Delete({s}), leaves.Delete(SubSubsOf(leaves, s));
      forall t | t in subs'.rows
        ensures ChildrenKept(leaves, leaves', t)
      {
        LeavesDeletedElsewhere(leaves, SubSubsOf(leaves, s), t);
      }
      forall n | n in mains.rows.Keys - {m}
        ensures PartsKept(subs, subs', n)
      {
        SubsDeletedElsewhere(subs, {s}, n);
      }
      SubsStayOk(subs, leaves, subs', leaves', subs'.rows.Keys);
      MainsStayOk(mains, subs, subs', mains.rows.Keys - {m});
      RecalcMainRolls(mains, subs', m);
    }
  }

  ghost predicate SameElsewhere(leaves: Table<SubSubItem>, leaves': Table<SubSubItem>, s: Id) {
    forall l :: (l in leaves.rows && leaves.rows[l].sub != s) || (l in leaves'.rows && leaves'.rows[l].sub != s) ==>
      l in leaves.rows && l in leaves'.rows && leaves'.rows[l] == leaves.rows[l]
  }

  lemma KeptElsewhere(leaves: Table<SubSubItem>, leaves': Table<SubSubItem>, s: Id, t: Id)
    requires SameElsewhere(leaves, leaves', s) && t != s
    ensures ChildrenKept(leaves, leaves', t)
  {
  }

  lemma RecalcSubRolls(subs: Table<SubItem>, leaves: Table<SubSubItem>, leaves': Table<SubSubItem>, s: Id)
    requires SubsOk(subs, leaves) && SameElsewhere(leaves, leaves', s)
    ensures SubsOk(Recalculated(subs, leaves', s), leaves')
  {
    hide SameElsewhere, ChildrenKept, ChildBudgets, CalcSubItemBudgeted;
    forall t | t in subs.rows.Keys - {s}
      ensures ChildrenKept(leaves, leaves', t)
    {
      KeptElsewhere(leaves, leaves', s, t);
    }
    SubsStayOk(subs, leaves, Recalculated(subs, leaves', s), leaves', subs.rows.Keys - {s});
  }

  lemma RecalcKeepsParts(subs: Table<SubItem>, leaves: Table<SubSubItem>, s: Id, n: Id)
    requires s in subs.rows ==> n != subs.rows[s].main
    ensures PartsKept(subs, Recalculated(subs, leaves, s), n)
  {
  }

  lemma OtherMainsStay(mains: Table<MainItem>, subs: Table<SubItem>, leaves: Table<SubSubItem>, s: Id)
    requires MainsOk(mains, subs)
    ensures forall n :: n in mains.rows && (s in subs.rows ==> n != subs.rows[s].main) ==>
      MainOk(mains.rows[n], PartBudgets(Recalculated(subs, leaves, s), n))
  {
    var kept := set n | n in mains.rows && (s in subs.rows ==> n != subs.rows[s].main);
    forall n | n in kept
      ensures PartsKept(subs, Recalculated(subs, leaves, s), n)
    {
      RecalcKeepsParts(subs, leaves, s, n);
    }
    MainsStayOk(mains, subs, Recalculated(subs, leaves, s), kept);
  }

  /** Changing the children of s and recalculating s and its parent keeps everything rolled up. */
  lemma LeafChangeKeeps(mains: Table<MainItem>, subs: Table<SubItem>, leaves: Table<SubSubItem>, leaves': Table<SubSubItem>, s: Id)
    requires LeavesOk(leaves) ==> LeavesOk(leaves')
    requires SameElsewhere(leaves, leaves', s)
    ensures RolledUp(mains, subs, leaves) ==>
      var subs' := Recalculated(subs, leaves', s);
      RolledUp(if s in subs'.rows then RecalculatedMain(mains, subs', subs'.rows[s].main) else mains, subs', leaves')
  {
    if RolledUp(mains, subs, leaves) {
      var subs' := Recalculated(subs, leaves', s);
      RecalcSubRolls(subs, leaves, leaves', s);
      OtherMainsStay(mains, subs, leaves', s);
      if s in subs.rows {
        RecalcMainRolls(mains, subs', subs.rows[s].main);
      }
    }
  }

  // ---- The calls that do not roll up ----

  lemma SumNext(prices: seq<real>, p: real)
    ensures SumOf(prices + [p]) == SumOf(prices) + p
  {
    assert (prices + [p])[..|prices|] == prices;
  }

  lemma BudgetsMore(subs: Table<SubItem>, after: Table<SubItem>, ids: seq<Id>, n: Id)
    requires n in after.rows && forall i :: i in ids ==> i in subs.rows && i in after.rows && after.rows[i] == subs.rows[i]
    ensures SubBudgets(after, ids + [n]) == SubBudgets(subs, ids) + [after.rows[n].budgeted]
  {
  }

  lemma OnePartMore(subs: Table<SubItem>, m: Id)
    requires subs.Valid()
    ensures PartBudgets(subs.Insert(NewSub(m)), m) == PartBudgets(subs, m) + [1.0]
  {
    var after := subs.Insert(NewSub(m));
    assert SubsOf(after, m) == SubsOf(subs, m) + {subs.next};
    AscendingNext(SubsOf(subs, m), subs.next);
    BudgetsMore(subs, after, Ascending(SubsOf(subs, m)), subs.next);
  }

  lemma OtherPartsSame(subs: Table<SubItem>, m: Id, n: Id)
    requires subs.Valid() && n != m
    ensures PartBudgets(subs.Insert(NewSub(m)), n) == PartBudgets(subs, n)
  {
    assert SubsOf(subs.Insert(NewSub(m)), n) == SubsOf(subs, n);
    SameParts(subs, subs.Insert(NewSub(m)), n);
  }

  lemma MainsAfterAdd(mains: Table<MainItem>, subs: Table<SubItem>, m: Id)
    requires subs.Valid() && MainsOk(mains, subs) && m in mains.rows
    ensures MainsOk(mains, subs.Insert(NewSub(m))) <==> MainOk(mains.rows[m], PartBudgets(subs, m) + [1.0])
  {
    hide MainOk, PartBudgets;
    OnePartMore(subs, m);
    forall n | n in mains.rows && n != m
      ensures MainOk(mains.rows[n], PartBudgets(subs.Insert(NewSub(m)), n))
    {
      OtherPartsSame(subs, m, n);
    }
  }

  lemma OneMoreUnit(total: real, qty: real)
    ensures (total + 1.0) * qty == total * qty + qty
  {
  }

  lemma MainAfterAdd(row: MainItem, prices: seq<real>)
    requires MainOk(row, prices)
    ensures MainOk(row, prices + [1.0]) <==> if |prices| > 0 then row.qty == 0.0 else row.budgeted == row.qty
  {
    SumNext(prices, 1.0);
    OneMoreUnit(SumOf(prices), row.qty);
  }

  /** HandleAddSubItem keeps a rolled-up main item rolled up exactly when the item had sub-items and quantity 0,
      or had none and its budget happens to be its quantity (times the new item's price of 1). */
  lemma AddSubExactly(mains: Table<MainItem>, subs: Table<SubItem>, m: Id)
    requires subs.Valid() && MainsOk(mains, subs) && m in mains.rows
    ensures var row := mains.rows[m];
      MainsOk(mains, subs.Insert(NewSub(m))) <==> if SubsOf(subs, m) != {} then row.qty == 0.0 else row.budgeted == row.qty
  {
    hide MainOk, PartBudgets;
    PartsCounted(subs, m);
    MainsAfterAdd(mains, subs, m);
    MainAfterAdd(mains.rows[m], PartBudgets(subs, m));
  }

  lemma ChildrenMore(leaves: Table<SubSubItem>, after: Table<SubSubItem>, ids: seq<Id>, n: Id)
    requires n in after.rows && forall i :: i in ids ==> i in leaves.rows && i in after.rows && after.rows[i] == leaves.rows[i]
    ensures LeafBudgets(after, ids + [n]) == LeafBudgets(leaves, ids) + [after.rows[n].budgeted]
  {
  }

  lemma OneChildMore(leaves: Table<SubSubItem>, s: Id)
    requires leaves.Valid()
    ensures ChildBudgets(leaves.Insert(NewSubSub(s)), s) == ChildBudgets(leaves, s) + [1.0]
  {
    var after := leaves.Insert(NewSubSub(s));
    assert SubSubsOf(after, s) == SubSubsOf(leaves, s) + {leaves.next};
    AscendingNext(SubSubsOf(leaves, s), leaves.next);
    ChildrenMore(leaves, after, Ascending(SubSubsOf(leaves, s)), leaves.next);
  }

  lemma OtherChildrenSame(leaves: Table<SubSubItem>, s: Id, t: Id)
    requires leaves.Valid() && t != s
    ensures ChildBudgets(leaves.Insert(NewSubSub(s)), t) == ChildBudgets(leaves, t)
  {
    assert SubSubsOf(leaves.Insert(NewSubSub(s)), t) == SubSubsOf(leaves, t);
    SameChildren(leaves, leaves.Insert(NewSubSub(s)), t);
  }

  lemma SubAfterAdd(row: SubItem, prices: seq<real>)
    requires SubOk(row, prices)
    ensures SubOk(row, prices + [1.0]) <==> |prices| == 0 && row.qty * row.price == 1.0
  {
    SumNext(prices, 1.0);
  }

  /** HandleAddSubSubItem keeps a rolled-up sub-item rolled up exactly when the sub-item had no children
      and its own quantity times price happens to be 1. */
  lemma AddSubSubExactly(subs: Table<SubItem>, leaves: Table<SubSubItem>, s: Id)
    requires leaves.Valid() && SubsOk(subs, leaves) && s in subs.rows
    ensures SubsOk(subs, leaves.Insert(NewSubSub(s))) <==>
      SubSubsOf(leaves, s) == {} && subs.rows[s].qty * subs.rows[s].price == 1.0
  {
    hide SubOk, ChildBudgets;
    ChildrenCounted(leaves, s);
    OneChildMore(leaves, s);
    SubAfterAdd(subs.rows[s], ChildBudgets(leaves, s));
    forall t | t in subs.rows && t != s
      ensures SubOk(subs.rows[t], ChildBudgets(leaves.Insert(NewSubSub(s)), t))
    {
      OtherChildrenSame(leaves, s, t);
    }
  }

  lemma OneMainChanged(mains: Table<MainItem>, subs: Table<SubItem>, m: Id, row: MainItem)
    requires MainsOk(mains, subs) && m in mains.rows
    ensures MainsOk(mains.Update(m, row), subs) <==> MainOk(row, PartBudgets(subs, m))
  {
  }

  /** HandlePatchMainItem keeps the main items rolled up exactly when the item has no sub-items,
      or the budget it ends up with is the sum of theirs times the quantity it ends up with. */
  lemma PatchMainExactly(mains: Table<MainItem>, subs: Table<SubItem>, m: Id,
                         qty: R.Option<real>, quoted: R.Option<real>, budgeted: R.Option<real>)
    requires MainsOk(mains, subs) && m in mains.rows
    ensures var row := mains.rows[m];
      MainsOk(PatchedMain(mains, m, qty, quoted, budgeted), subs) <==>
        SubsOf(subs, m) == {} || Edited(row.budgeted, budgeted) == SumOf(PartBudgets(subs, m)) * Edited(row.qty, qty)
  {
    hide PartBudgets, SumOf;
    var row := mains.rows[m];
    PartsCounted(subs, m);
    OneMainChanged(mains, subs, m, MainItem(row.boq, Edited(row.qty, qty), Edited(row.quoted, quoted), Edited(row.budgeted, budgeted)));
  }

  lemma OtherQuantity(total: real, p: real, q: real)
    ensures total * p == total * q <==> p == q || total == 0.0
  {
    assert total * p - total * q == total * (p - q);
  }

  /** When only the quantity is patched, that is: no sub-items, the same quantity, or sub-items that cost nothing. */
  lemma PatchQuantityExactly(mains: Table<MainItem>, subs: Table<SubItem>, m: Id, qty: real)
    requires MainsOk(mains, subs) && m in mains.rows
    ensures MainsOk(PatchedMain(mains, m, R.Some(qty), R.None, R.None), subs) <==>
      SubsOf(subs, m) == {} || qty == mains.rows[m].qty || SumOf(PartBudgets(subs, m)) == 0.0
  {
    hide PartBudgets, SumOf;
    PartsCounted(subs, m);
    PatchMainExactly(mains, subs, m, R.Some(qty), R.None, R.None);
    OtherQuantity(SumOf(PartBudgets(subs, m)), mains.rows[m].qty, qty);
  }

  /** A new main item has no sub-items, so it changes nothing about the others. */
  lemma AddMainKeeps(mains: Table<MainItem>, subs: Table<SubItem>, row: MainItem)
    requires mains.Valid() && MainsOk(mains, subs) && forall s :: s in subs.rows ==> subs.rows[s].main in mains.rows
    ensures MainsOk(mains.Insert(row), subs)
  {
    assert SubsOf(subs, mains.next) == {};
  }

  // ---- Books in which every parent exists ----

  ghost predicate Nested(mains: Table<MainItem>, subs: Table<SubItem>, leaves: Table<SubSubItem>) {
    && mains.Valid() && subs.Valid() && leaves.Valid()
    && (forall s :: s in subs.rows ==> subs.rows[s].main in mains.rows)
    && (forall l :: l in leaves.rows ==> leaves.rows[l].sub in subs.rows)
  }

  lemma DeleteMainNested(mains: Table<MainItem>, subs: Table<SubItem>, leaves: Table<SubSubItem>, m: Id)
    ensures Nested(mains, subs, leaves) ==>
      Nested(mains.Delete({m}), subs.Delete(SubsOf(subs, m)), leaves.Delete(BelowSubs(leaves, SubsOf(subs, m))))
  {
  }

  lemma RecalcMainNested(mains: Table<MainItem>, subs: Table<SubItem>, leaves: Table<SubSubItem>, m: Id)
    ensures Nested(mains, subs, leaves) ==> Nested(RecalculatedMain(mains, subs, m), subs, leaves)
  {
  }

  lemma WithoutSubNested(mains: Table<MainItem>, subs: Table<SubItem>, leaves: Table<SubSubItem>, s: Id)
    ensures Nested(mains, subs, leaves) ==> Nested(mains, subs.Delete({s}), leaves.Delete(SubSubsOf(leaves, s)))
  {
  }

  lemma DeleteSubNested(mains: Table<MainItem>, subs: Table<SubItem>, leaves: Table<SubSubItem>, s: Id)
    requires s in subs.rows
    ensures Nested(mains, subs, leaves) ==>
      var subs' := subs.Delete({s});
      Nested(RecalculatedMain(mains, subs', subs.rows[s].main), subs', leaves.Delete(SubSubsOf(leaves, s)))
  {
    hide Nested, RecalculatedMain, SubSubsOf;
    WithoutSubNested(mains, subs, leaves, s);
    RecalcMainNested(mains, subs.Delete({s}), leaves.Delete(SubSubsOf(leaves, s)), subs.rows[s].main);
  }

  lemma LeafChangeNested(mains: Table<MainItem>, subs: Table<SubItem>, leaves: Table<SubSubItem>, leaves': Table<SubSubItem>, s: Id)
    requires leaves'.next == leaves.next
    requires forall l :: l in leaves'.rows ==> l in leaves.rows && leaves'.rows[l].sub == leaves.rows[l].sub
    ensures Nested(mains, subs, leaves) ==>
      var subs' := Recalculated(subs, leaves', s);
      Nested(if s in subs'.rows then RecalculatedMain(mains, subs', subs'.rows[s].main) else mains, subs', leaves')
  {
    hide ChildBudgets, PartBudgets;
    var subs' := Recalculated(subs, leaves', s);
    if s in subs'.rows {
      RecalcMainNested(mains, subs', leaves', subs'.rows[s].main);
    }
  }

  /** What a call keeps that deletes or reprices leaf l and then recalculates its two ancestors. */
  ghost predicate LeafChange(leaves: Table<SubSubItem>, leaves': Table<SubSubItem>, s: Id) {
    && leaves'.next == leaves.next && SameElsewhere(leaves, leaves', s)
    && (forall l :: l in leaves'.rows ==> l in leaves.rows && leaves'.rows[l].sub == leaves.rows[l].sub)
    && (LeavesOk(leaves) ==> LeavesOk(leaves'))
  }

  lemma LeafDeleted(leaves: Table<SubSubItem>, l: Id)
    requires l in leaves.rows
    ensures LeafChange(leaves, leaves.Delete({l}), leaves.rows[l].sub)
  {
  }

  lemma LeafPriced(leaves: Table<SubSubItem>, l: Id, edit: Edit)
    requires l in leaves.rows
    ensures LeafChange(leaves, leaves.Update(l, Priced(leaves.rows[l], edit)), leaves.rows[l].sub)
  {
  }

  lemma LeafUntouched(leaves: Table<SubSubItem>, s: Id)
    ensures LeafChange(leaves, leaves, s)
  {
  }

  lemma LeafChangeEffect(mains: Table<MainItem>, subs: Table<SubItem>, leaves: Table<SubSubItem>, leaves': Table<SubSubItem>, s: Id)
    requires LeafChange(leaves, leaves', s)
    ensures var subs' := Recalculated(subs, leaves', s);
      var mains' := if s in subs'.rows then RecalculatedMain(mains, subs', subs'.rows[s].main) else mains;
      && (RolledUp(mains, subs, leaves) ==> RolledUp(mains', subs', leaves'))
      && (Nested(mains, subs, leaves) ==> Nested(mains', subs', leaves'))
  {
    hide RolledUp, Nested, Recalculated, RecalculatedMain, LeavesOk, SameElsewhere;
    LeafChangeNested(mains, subs, leaves, leaves', s);
    LeafChangeKeeps(mains, subs, leaves, leaves', s);
  }

  // ---- What the calls without recalculation do to the caches ----

  lemma PatchMainEffect(mains: Table<MainItem>, subs: Table<SubItem>, leaves: Table<SubSubItem>, m: Id,
                        qty: R.Option<real>, quoted: R.Option<real>, budgeted: R.Option<real>)
    ensures var after := PatchedMain(mains, m, qty, quoted, budgeted);
      && (Nested(mains, subs, leaves) ==> Nested(after, subs, leaves))
      && (MainsOk(mains, subs) && m in after.rows ==>
           (MainsOk(after, subs) <==>
             SubsOf(subs, m) == {} || after.rows[m].budgeted == SumOf(PartBudgets(subs, m)) * after.rows[m].qty))
  {
    hide MainsOk, SubsOf, PartBudgets, SumOf;
    if MainsOk(mains, subs) && m in mains.rows {
      PatchMainExactly(mains, subs, m, qty, quoted, budgeted);
    }
  }

  lemma AddMainEffect(mains: Table<MainItem>, subs: Table<SubItem>, leaves: Table<SubSubItem>, boq: Id)
    requires Nested(mains, subs, leaves)
    ensures var after := mains.Insert(NewMain(boq));
      Nested(after, subs, leaves) && (RolledUp(mains, subs, leaves) ==> RolledUp(after, subs, leaves))
  {
    hide MainsOk, SubsOk, LeavesOk;
    if MainsOk(mains, subs) {
      AddMainKeeps(mains, subs, NewMain(boq));
    }
  }

  /** A new sub-item has no children, and its budget is its quantity times its price. */
  lemma AddSubKeepsSubs(mains: Table<MainItem>, subs: Table<SubItem>, leaves: Table<SubSubItem>, m: Id)
    requires Nested(mains, subs, leaves) && SubsOk(subs, leaves)
    ensures SubsOk(subs.Insert(NewSub(m)), leaves)
  {
    hide ChildBudgets;
    assert SubSubsOf(leaves, subs.next) == {};
    ChildrenCounted(leaves, subs.next);
  }

  /** A sub-item added to a rolled-up book leaves it so exactly when its main item had sub-items and quantity 0,
      or had none and a budget equal to its quantity. */
  lemma AddSubEffect(mains: Table<MainItem>, subs: Table<SubItem>, leaves: Table<SubSubItem>, m: Id)
    requires Nested(mains, subs, leaves) && m in mains.rows
    ensures Nested(mains, subs.Insert(NewSub(m)), leaves)
    ensures RolledUp(mains, subs, leaves) ==>
      (RolledUp(mains, subs.Insert(NewSub(m)), leaves) <==>
        if SubsOf(subs, m) != {} then mains.rows[m].qty == 0.0 else mains.rows[m].budgeted == mains.rows[m].qty)
  {
    hide MainsOk, SubsOk, LeavesOk, SubsOf;
    if RolledUp(mains, subs, leaves) {
      AddSubKeepsSubs(mains, subs, leaves, m);
      AddSubExactly(mains, subs, m);
    }
  }

  /** A leaf added to a rolled-up book leaves it so exactly when it is the first of its sub-item,
      whose own quantity times price was 1. */
  lemma AddSubSubEffect(mains: Table<MainItem>, subs: Table<SubItem>, leaves: Table<SubSubItem>, s: Id)
    requires Nested(mains, subs, leaves) && s in subs.rows
    ensures Nested(mains, subs, leaves.Insert(NewSubSub(s)))
    ensures RolledUp(mains, subs, leaves) ==>
      (RolledUp(mains, subs, leaves.Insert(NewSubSub(s))) <==>
        SubSubsOf(leaves, s) == {} && subs.rows[s].qty * subs.rows[s].price == 1.0)
  {
    hide MainsOk, SubsOk, SubSubsOf;
    if RolledUp(mains, subs, leaves) {
      AddSubSubExactly(subs, leaves, s);
    }
  }

  // ---- Books that calls leave stale ----

  function NewMain(boq: Id): MainItem {
    MainItem(boq, 1.0, 1.0, 0.0)
  }

  const NO_MAINS: Table<MainItem> := Table(map[], 1)
  const NO_SUBS: Table<SubItem> := Table(map[], 1)
  const NO_LEAVES: Table<SubSubItem> := Table(map[], 1)

  /** From the empty book: a main item and a first sub-item in it leave the main item stale. */
  lemma StaleAfterAddSub(boq: Id)
    ensures var mains := NO_MAINS.Insert(NewMain(boq));
      MainsOk(mains, NO_SUBS) && !MainsOk(mains, NO_SUBS.Insert(NewSub(1)))
  {
    var mains := NO_MAINS.Insert(NewMain(boq));
    assert SubsOf(NO_SUBS, 1) == {};
    PartsCounted(NO_SUBS, 1);
    AddSubExactly(mains, NO_SUBS, 1);
  }

  lemma OneNewSub()
    ensures var subs, one := NO_SUBS.Insert(NewSub(1)), NO_LEAVES.Insert(NewSubSub(1));
      && 1 in subs.rows && subs.rows[1] == NewSub(1) && one.Valid()
      && SubSubsOf(NO_LEAVES, 1) == {} && SubSubsOf(one, 1) != {}
  {
    assert 1 in SubSubsOf(NO_LEAVES.Insert(NewSubSub(1)), 1);
  }

  lemma NewSubOk()
    ensures SubsOk(NO_SUBS.Insert(NewSub(1)), NO_LEAVES)
  {
    assert SubSubsOf(NO_LEAVES, 1) == {};
    ChildrenCounted(NO_LEAVES, 1);
    hide ChildBudgets;
  }

  /** The first child of a new sub-item happens to cost the same as the sub-item did; a second one leaves it stale. */
  lemma StaleAfterAddSubSub()
    ensures var subs, one := NO_SUBS.Insert(NewSub(1)), NO_LEAVES.Insert(NewSubSub(1));
      SubsOk(subs, NO_LEAVES) && SubsOk(subs, one) && !SubsOk(subs, one.Insert(NewSubSub(1)))
  {
    hide SubsOk, SubSubsOf;
    var subs, one := NO_SUBS.Insert(NewSub(1)), NO_LEAVES.Insert(NewSubSub(1));
    OneNewSub();
    NewSubOk();
    AddSubSubExactly(subs, NO_LEAVES, 1);
    AddSubSubExactly(subs, one, 1);
  }

  lemma OneNewPart()
    ensures var subs := NO_SUBS.Insert(NewSub(1));
      SubsOf(subs, 1) != {} && SumOf(PartBudgets(subs, 1)) == 1.0
  {
    assert SubsOf(NO_SUBS, 1) == {};
    PartsCounted(NO_SUBS, 1);
    OnePartMore(NO_SUBS, 1);
    SumNext([], 1.0);
    assert PartBudgets(NO_SUBS.Insert(NewSub(1)), 1) == [] + [1.0];
    assert 1 in SubsOf(NO_SUBS.Insert(NewSub(1)), 1);
  }

  /** A main item with one new sub-item, rolled up, then patched to quantity 2, or to budget 2, is stale. */
  lemma StaleAfterPatchMain(boq: Id)
    ensures var subs := NO_SUBS.Insert(NewSub(1)); var mains := RecalculatedMain(NO_MAINS.Insert(NewMain(boq)), subs, 1);
      && MainsOk(mains, subs)
      && !MainsOk(PatchedMain(mains, 1, R.Some(2.0), R.None, R.None), subs)
      && !MainsOk(PatchedMain(mains, 1, R.None, R.None, R.Some(2.0)), subs)
  {
    hide PartBudgets, SubsOf, MainsOk, PatchedMain;
    var subs := NO_SUBS.Insert(NewSub(1));
    var mains := RecalculatedMain(NO_MAINS.Insert(NewMain(boq)), subs, 1);
    OnlyMainRolls(NO_MAINS.Insert(NewMain(boq)), subs);
    OneNewPart();
    PartsCounted(subs, 1);
    PatchMainExactly(mains, subs, 1, R.Some(2.0), R.None, R.None);
    PatchMainExactly(mains, subs, 1, R.None, R.None, R.Some(2.0));
  }

  lemma OnlyMainRolls(mains: Table<MainItem>, subs: Table<SubItem>)
    requires mains.rows.Keys == {1}
    ensures MainsOk(RecalculatedMain(mains, subs, 1), subs)
  {
    RecalcMainRolls(mains, subs, 1);
  }
}
