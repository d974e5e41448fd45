/** handlers/items.go and handlers/boq_edit.go: the calls on single items of a bill of quantities. */
module Boq {
  import opened Tables
  import opened BoqCaches
  import R = Records

  class Book {
    var mains: Table<MainItem>
    var subs: Table<SubItem>
    var leaves: Table<SubSubItem>

    constructor ()
      ensures RolledUp(mains, subs, leaves) && Nested(mains, subs, leaves)
    {
      mains, subs, leaves := Table(map[], 1), Table(map[], 1), Table(map[], 1);
    }

    method SubSubTotal(s: Id) returns (total: real)
      ensures total == SumOf(ChildBudgets(leaves, s))
    {
      var ids := Ascending(SubSubsOf(leaves, s));
      ghost var prices := ChildBudgets(leaves, s);
      total := 0.0;
      for i := 0 to |ids|
        invariant total == SumOf(prices[..i])
      {
        assert ids[i] in ids;
        SumMore(prices, i);
        total := total + leaves.rows[ids[i]].budgeted;
      }
      assert prices[..|ids|] == prices;
    }

    method SubTotal(m: Id) returns (total: real)
      ensures total == SumOf(PartBudgets(subs, m))
    {
      var ids := Ascending(SubsOf(subs, m));
      ghost var prices := PartBudgets(subs, m);
      total := 0.0;
      for i := 0 to |ids|
        invariant total == SumOf(prices[..i])
      {
        assert ids[i] in ids;
        SumMore(prices, i);
        total := total + subs.rows[ids[i]].budgeted;
      }
      assert prices[..|ids|] == prices;
    }

    /** recalcSubItemBudgeted */
    method RecalcSub(s: Id)
      modifies this`subs
      ensures subs == Recalculated(old(subs), leaves, s)
    {
      if s !in subs.rows {
        return;
      }
      var row := subs.rows[s];
      if |Ascending(SubSubsOf(leaves, s))| > 0 {
        var total := SubSubTotal(s);
        subs := subs.Update(s, row.(budgeted := total));
      } else {
        subs := subs.Update(s, row.(budgeted := row.qty * row.price));
      }
    }

    /** recalcMainItemBudgeted */
    method RecalcMain(m: Id)
      modifies this`mains
      ensures mains == RecalculatedMain(old(mains), subs, m)
    {
      if m !in mains.rows {
        return;
      }
      var row := mains.rows[m];
      if SubsOf(subs, m) != {} {
        var total := SubTotal(m);
        TotalOfParts(row, subs, m, total);
        mains := mains.Update(m, row.(budgeted := total * row.qty));
      }
    }

    // ---- Deletions ----

    /** HandleDeleteMainItem; the levels below go with it (cascade). */
    method DeleteMain(m: Id)
      modifies this
      ensures mains == old(mains).Delete({m}) && subs == old(subs).Delete(SubsOf(old(subs), m))
      ensures leaves == old(leaves).Delete(BelowSubs(old(leaves), SubsOf(old(subs), m)))
      ensures old(RolledUp(mains, subs, leaves)) ==> RolledUp(mains, subs, leaves)
      ensures old(Nested(mains, subs, leaves)) ==> Nested(mains, subs, leaves)
    {
      hide RolledUp, Nested, LeafChange, MainsOk, SubsOk, LeavesOk, SumOf, PartBudgets, ChildBudgets;
      var gone := SubsOf(subs, m);
      leaves := leaves.Delete(BelowSubs(leaves, gone));
      subs := subs.Delete(gone);
      mains := mains.Delete({m});
      DeleteMainNested(old(mains), old(subs), old(leaves), m);
      DeleteMainKeeps(old(mains), old(subs), old(leaves), m);
    }

    /** HandleDeleteSubItem */
    method DeleteSub(s: Id)
      modifies this
      ensures if s !in old(subs).rows then mains == old(mains) && subs == old(subs) && leaves == old(leaves)
              else subs == old(subs).Delete({s}) && leaves == old(leaves).Delete(SubSubsOf(old(leaves), s))
                   && mains == RecalculatedMain(old(mains), subs, old(subs).rows[s].main)
      ensures old(RolledUp(mains, subs, leaves)) ==> RolledUp(mains, subs, leaves)
      ensures old(Nested(mains, subs, leaves)) ==> Nested(mains, subs, leaves)
    {
      hide RolledUp, Nested, LeafChange, MainsOk, SubsOk, LeavesOk, SumOf, PartBudgets, ChildBudgets;
      if s !in subs.rows {
        return;
      }
      var m := subs.rows[s].main;
      leaves := leaves.Delete(SubSubsOf(leaves, s));
      subs := subs.Delete({s});
      RecalcMain(m);
      DeleteSubNested(old(mains), old(subs), old(leaves), s);
      DeleteSubKeeps(old(mains), old(subs), old(leaves), s);
    }

    /** HandleDeleteSubSubItem */
    method DeleteSubSub(l: Id)
      modifies this
      ensures old(RolledUp(mains, subs, leaves)) ==> RolledUp(mains, subs, leaves)
      ensures old(Nested(mains, subs, leaves)) ==> Nested(mains, subs, leaves)
      ensures leaves == old(leaves).Delete({l})
      ensures l !in old(leaves).rows ==> mains == old(mains) && subs == old(subs)
      ensures l in old(leaves).rows ==>
        var s := old(leaves).rows[l].sub;
        && subs == Recalculated(old(subs), leaves, s)
        && mains == if s in subs.rows then RecalculatedMain(old(mains), subs, subs.rows[s].main) else old(mains)
    {
      hide RolledUp, Nested, LeafChange, MainsOk, SubsOk, LeavesOk, SumOf, PartBudgets, ChildBudgets;
      if l !in leaves.rows {
        assert leaves.Delete({l}).rows == leaves.rows;
        return;
      }
      var s := leaves.rows[l].sub;
      leaves := leaves.Delete({l});
      RecalcSub(s);
      if s in subs.rows {
        RecalcMain(subs.rows[s].main);
      }
      LeafDeleted(old(leaves), l);
      LeafChangeEffect(old(mains), old(subs), old(leaves), leaves, s);
    }

    // ---- Patches ----

    /** HandlePatchSubItem: the edited record is never saved, so only the recalculation shows. */
    method PatchSub(s: Id, edit: Edit, updated: bool) returns (shown: real)
      requires edit.qty.Some? || edit.price.Some? ==> updated
      modifies this`mains, this`subs
      ensures if s in old(subs).rows && updated
              then subs == Recalculated(old(subs), leaves, s) && mains == RecalculatedMain(old(mains), subs, old(subs).rows[s].main)
              else subs == old(subs) && mains == old(mains)
      ensures s in subs.rows ==> shown == subs.rows[s].budgeted
      ensures subs.rows.Keys == old(subs).rows.Keys
      ensures forall t :: t in subs.rows ==> subs.rows[t].qty == old(subs).rows[t].qty && subs.rows[t].price == old(subs).rows[t].price
      ensures old(RolledUp(mains, subs, leaves)) ==> RolledUp(mains, subs, leaves) && subs == old(subs)
      ensures old(Nested(mains, subs, leaves)) ==> Nested(mains, subs, leaves)
    {
      hide RolledUp, Nested, LeafChange, MainsOk, SubsOk, LeavesOk, SumOf, PartBudgets, ChildBudgets;
      if s !in subs.rows {
        return 0.0;
      }
      var row := subs.rows[s];
      row := row.(qty := Edited(row.qty, edit.qty), price := Edited(row.price, edit.price));
      if updated {
        RecalcSub(s);
        row := subs.rows[s];
        RecalcMain(row.main);
        LeafUntouched(leaves, s);
        LeafChangeEffect(old(mains), old(subs), leaves, leaves, s);
        RecalculatedSame(old(mains), old(subs), leaves, s);
      }
      shown := row.budgeted;
    }

    /** HandlePatchSubSubItem: the item, then its parents. */
    method PatchSubSub(l: Id, edit: Edit, updated: bool)
      requires edit.qty.Some? || edit.price.Some? ==> updated
      modifies this
      ensures if l in old(leaves).rows && updated then
          var row := old(leaves).rows[l];
          && leaves == old(leaves).Update(l, Priced(row, edit))
          && subs == Recalculated(old(subs), leaves, row.sub)
          && mains == if row.sub in subs.rows then RecalculatedMain(old(mains), subs, subs.rows[row.sub].main) else old(mains)
        else leaves == old(leaves) && subs == old(subs) && mains == old(mains)
      ensures l in old(leaves).rows && updated ==>
        && leaves.rows[l].qty == (if edit.qty.Some? then edit.qty.value else old(leaves).rows[l].qty)
        && leaves.rows[l].price == (if edit.price.Some? then edit.price.value else old(leaves).rows[l].price)
        && leaves.rows[l].budgeted == leaves.rows[l].qty * leaves.rows[l].price
      ensures old(RolledUp(mains, subs, leaves)) ==> RolledUp(mains, subs, leaves)
      ensures old(Nested(mains, subs, leaves)) ==> Nested(mains, subs, leaves)
    {
      hide RolledUp, Nested, LeafChange, MainsOk, SubsOk, LeavesOk, SumOf, PartBudgets, ChildBudgets;
      if l !in leaves.rows || !updated {
        return;
      }
      var row := leaves.rows[l];
      var qty, price := Edited(row.qty, edit.qty), Edited(row.price, edit.price);
      var budgeted := qty * price;
      assert SubSubItem(row.sub, qty, price, budgeted) == Priced(row, edit);
      leaves := leaves.Update(l, SubSubItem(row.sub, qty, price, budgeted));
      RecalcSub(row.sub);
      if row.sub in subs.rows {
        RecalcMain(subs.rows[row.sub].main);
      }
      LeafPriced(old(leaves), l, edit);
      LeafChangeEffect(old(mains), old(subs), old(leaves), leaves, row.sub);
    }

    /** HandlePatchMainItem: no recalculation, so the item stays rolled up only by luck. */
    method PatchMain(m: Id, qty: R.Option<real>, quoted: R.Option<real>, budgeted: R.Option<real>)
      modifies this`mains
      ensures mains == PatchedMain(old(mains), m, qty, quoted, budgeted)
      ensures m in old(mains).rows ==>
        && mains.rows[m].qty == (if qty.Some? then qty.value else old(mains).rows[m].qty)
        && mains.rows[m].quoted == (if quoted.Some? then quoted.value else old(mains).rows[m].quoted)
        && mains.rows[m].budgeted == (if budgeted.Some? then budgeted.value else old(mains).rows[m].budgeted)
      ensures old(MainsOk(mains, subs)) && m in mains.rows ==>
        (MainsOk(mains, subs) <==> SubsOf(subs, m) == {} || mains.rows[m].budgeted == SumOf(PartBudgets(subs, m)) * mains.rows[m].qty)
      ensures old(Nested(mains, subs, leaves)) ==> Nested(mains, subs, leaves)
    {
      hide RolledUp, Nested, LeafChange, MainsOk, SubsOk, LeavesOk, SumOf, PartBudgets, ChildBudgets;
      PatchMainEffect(mains, subs, leaves, m, qty, quoted, budgeted);
      if m in mains.rows {
        var row := mains.rows[m];
        mains := mains.Update(m, row.(qty := Edited(row.qty, qty), quoted := Edited(row.quoted, quoted),
                                      budgeted := Edited(row.budgeted, budgeted)));
      }
    }

    // ---- Additions ----

    /** HandleAddMainItem: a new main item has no sub-items to agree with. */
    method AddMain(boq: Id)
      modifies this`mains
      ensures mains == old(mains).Insert(MainItem(boq, 1.0, 1.0, 0.0))
      ensures old(Nested(mains, subs, leaves)) ==> Nested(mains, subs, leaves)
      ensures old(Nested(mains, subs, leaves) && RolledUp(mains, subs, leaves)) ==> RolledUp(mains, subs, leaves)
    {
      hide RolledUp, Nested, LeafChange, MainsOk, SubsOk, LeavesOk, SumOf, PartBudgets, ChildBudgets;
      if Nested(mains, subs, leaves) {
        AddMainEffect(mains, subs, leaves, boq);
      }
      mains := mains.Insert(MainItem(boq, 1.0, 1.0, 0.0));
    }

    /** HandleAddSubItem: no recalculation of the main item, which goes stale unless it had sub-items and quantity 0,
        or none and a budget equal to its quantity. */
    method AddSub(m: Id)
      modifies this`subs
      ensures subs == old(subs).Insert(SubItem(m, 1.0, 1.0, 1.0))
      ensures old(Nested(mains, subs, leaves)) && m in mains.rows ==> Nested(mains, subs, leaves)
      ensures old(Nested(mains, subs, leaves) && RolledUp(mains, subs, leaves)) && m in mains.rows ==>
        (RolledUp(mains, subs, leaves) <==>
          if SubsOf(old(subs), m) != {} then mains.rows[m].qty == 0.0 else mains.rows[m].budgeted == mains.rows[m].qty)
    {
      hide RolledUp, Nested, LeafChange, MainsOk, SubsOk, LeavesOk, SumOf, PartBudgets, ChildBudgets;
      if Nested(mains, subs, leaves) && m in mains.rows {
        AddSubEffect(mains, subs, leaves, m);
      }
      subs := subs.Insert(SubItem(m, 1.0, 1.0, 1.0));
    }

    /** HandleAddSubSubItem: no recalculation of the sub-item, which goes stale unless the new leaf is its first one
        and its own quantity times price was 1. */
    method AddSubSub(s: Id)
      modifies this`leaves
      ensures leaves == old(leaves).Insert(SubSubItem(s, 1.0, 1.0, 1.0))
      ensures old(Nested(mains, subs, leaves)) && s in subs.rows ==> Nested(mains, subs, leaves)
      ensures old(Nested(mains, subs, leaves) && RolledUp(mains, subs, leaves)) && s in subs.rows ==>
        (RolledUp(mains, subs, leaves) <==>
          SubSubsOf(old(leaves), s) == {} && subs.rows[s].qty * subs.rows[s].price == 1.0)
    {
      hide RolledUp, Nested, LeafChange, MainsOk, SubsOk, LeavesOk, SumOf, PartBudgets, ChildBudgets;
      if Nested(mains, subs, leaves) && s in subs.rows {
        AddSubSubEffect(mains, subs, leaves, s);
      }
      leaves := leaves.Insert(SubSubItem(s, 1.0, 1.0, 1.0));
    }
  }
}
