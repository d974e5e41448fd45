/** A split carries exactly the plan of the destinations it takes. */
module SplitAccounts {
  import opened Tables
  import opened Sums
  import opened Records
  import opened Shipments
  import opened SplitSpec
  import opened Invariants
  import opened Accounts

  predicate NoRepeats(ds: seq<Id>) {
    forall i, j :: 0 <= i < j < |ds| ==> ds[i] != ds[j]
  }

  // ---- The planned total as a sum over the selected destinations ----

  lemma {:induction false} PlannedTotalIsSum(plans: Table<Plan>, ds: seq<Id>, key: SourceKey, n: nat)
    requires n <= |ds| && NoRepeats(ds)
    ensures PlannedTotal(plans, ds, key, n) as real == PlannedFor(plans, IdsIn(ds[..n]), key)
  {
    if n > 0 {
      var now, before := IdsIn(ds[..n]), IdsIn(ds[..n - 1]);
      PlannedTotalIsSum(plans, ds, key, n - 1);
      assert ds[..n] == ds[..n - 1] + [ds[n - 1]];
      assert now == before + {ds[n - 1]};
      assert ds[n - 1] !in before;
      SumPick(now, PlannedAt(plans, key), ds[n - 1]);
      assert now - {ds[n - 1]} == before;
    } else {
      assert IdsIn(ds[..0]) == {};
    }
  }

  lemma {:induction false} PlannedTotalSign(plans: Table<Plan>, ds: seq<Id>, key: SourceKey, n: nat)
    requires n <= |ds| && forall d :: d in ds ==> Planned(plans, d, key) >= 0
    ensures PlannedTotal(plans, ds, key, n) >= 0
    ensures PlannedTotal(plans, ds, key, n) == 0 ==> forall i :: 0 <= i < n ==> Planned(plans, ds[i], key) == 0
  {
    if n > 0 {
      PlannedTotalSign(plans, ds, key, n - 1);
      assert Planned(plans, ds[n - 1], key) >= 0;
    }
  }

  /** The destinations' plans are non-negative and only name items of the parent's lines. */
  ghost predicate PlansCover(lines: Table<Line>, plans: Table<Plan>, ids: seq<Id>, ds: seq<Id>) {
    forall d, key :: d in ds ==>
      Planned(plans, d, key) >= 0
      && (Planned(plans, d, key) != 0 ==> exists l :: l in ids && l in lines.rows && lines.rows[l].key == key)
  }

  ghost predicate DistinctKeys(lines: Table<Line>, ids: seq<Id>) {
    && (forall l :: l in ids ==> l in lines.rows)
    && (forall i, j :: 0 <= i < j < |ids| ==> lines.rows[ids[i]].key != lines.rows[ids[j]].key)
  }

  // ---- The transit lines ----

  function SplitQuantity(s: Store, p: SplitParams, key: SourceKey): int {
    PlannedTotal(s.plans, p.dests, key, |p.dests|)
  }

  /** The transit rows made from the first n of the parent lines ids. */
  function TransitRows(s: Store, p: SplitParams, ids: seq<Id>, n: nat, x: Id): seq<Line>
    requires n <= |ids| && forall l :: l in ids ==> l in s.lines.rows
  {
    ItemLines(SplitItems(s, p, Picked(s.lines, s.plans, ids, p.dests, n)), x)
  }

  lemma TransitRowsStep(s: Store, p: SplitParams, ids: seq<Id>, n: nat, x: Id)
    requires 0 < n <= |ids| && forall l :: l in ids ==> l in s.lines.rows
    ensures var l := ids[n - 1];
      TransitRows(s, p, ids, n, x)
      == TransitRows(s, p, ids, n - 1, x)
         + if SplitQuantity(s, p, s.lines.rows[l].key) > 0 then [SplitItem(s, p, l).line.(dc := x)] else []
  {
  }

  lemma TransitTotalStep(s: Store, p: SplitParams, ids: seq<Id>, n: nat, x: Id, key: SourceKey, m: Measure)
    requires 0 < n <= |ids| && forall l :: l in ids ==> l in s.lines.rows
    ensures var l := ids[n - 1];
      SeqTotal(TransitRows(s, p, ids, n, x), KeyAmount(key, m))
      == SeqTotal(TransitRows(s, p, ids, n - 1, x), KeyAmount(key, m))
         + if s.lines.rows[l].key == key && SplitQuantity(s, p, key) > 0 then Amount(SplitItem(s, p, l).line, m) else 0.0
  {
    var l := ids[n - 1];
    TransitRowsStep(s, p, ids, n, x);
    SeqTotalMaybe(TransitRows(s, p, ids, n - 1, x), SplitQuantity(s, p, s.lines.rows[l].key) > 0,
                  SplitItem(s, p, l).line.(dc := x), KeyAmount(key, m));
  }

  lemma NoTransitRows(s: Store, p: SplitParams, ids: seq<Id>, x: Id)
    requires forall l :: l in ids ==> l in s.lines.rows
    ensures TransitRows(s, p, ids, 0, x) == []
  {
  }

  lemma {:induction false} TransitWithout(s: Store, p: SplitParams, ids: seq<Id>, n: nat, x: Id, key: SourceKey, m: Measure)
    requires n <= |ids| && forall l :: l in ids ==> l in s.lines.rows
    requires forall i :: 0 <= i < n ==> s.lines.rows[ids[i]].key != key
    ensures SeqTotal(TransitRows(s, p, ids, n, x), KeyAmount(key, m)) == 0.0
  {
    hide TransitRows, SplitItem, SplitQuantity, Picked;
    if n == 0 {
      NoTransitRows(s, p, ids, x);
    } else {
      TransitWithout(s, p, ids, n - 1, x, key, m);
      TransitTotalStep(s, p, ids, n, x, key, m);
    }
  }

  lemma {:induction false} TransitWith(s: Store, p: SplitParams, ids: seq<Id>, n: nat, x: Id, i: nat, m: Measure)
    requires i < n <= |ids| && DistinctKeys(s.lines, ids)
    ensures var key := s.lines.rows[ids[i]].key;
      SeqTotal(TransitRows(s, p, ids, n, x), KeyAmount(key, m))
      == if SplitQuantity(s, p, key) > 0 then Amount(SplitItem(s, p, ids[i]).line, m) else 0.0
  {
    hide TransitRows, SplitItem, SplitQuantity, Picked;
    var key := s.lines.rows[ids[i]].key;
    TransitTotalStep(s, p, ids, n, x, key, m);
    if i == n - 1 {
      TransitWithout(s, p, ids, n - 1, x, key, m);
    } else {
      TransitWith(s, p, ids, n - 1, x, i, m);
    }
  }

  lemma ItemLineAmount(s: Store, p: SplitParams, l: Id, m: Measure)
    requires l in s.lines.rows
    ensures Amount(SplitItem(s, p, l).line, m)
            == Scaled(s.lines.rows[l], m, SplitQuantity(s, p, s.lines.rows[l].key) as real)
  {
    var row := s.lines.rows[l];
    PricedAmount(row.key, SplitQuantity(s, p, row.key), row.rate, row.taxPercent, row.order, m);
  }

  // ---- The official lines ----

  lemma {:induction false} DestinationLinesPrefix(s: Store, picked: seq<Id>, l: Id, d: Id, n: nat)
    requires n <= |picked| && l in s.lines.rows && forall k :: k in picked ==> k in s.lines.rows
    ensures DestinationLines(s, picked + [l], d, n) == DestinationLines(s, picked, d, n)
  {
    if n > 0 {
      DestinationLinesPrefix(s, picked, l, d, n - 1);
      assert (picked + [l])[n - 1] == picked[n - 1];
    }
  }

  /** The rows for destination d made from the first n of the parent lines ids. */
  function OfficialRows(s: Store, ids: seq<Id>, ds: seq<Id>, n: nat, d: Id): seq<Line>
    requires n <= |ids| && forall l :: l in ids ==> l in s.lines.rows
  {
    var picked := Picked(s.lines, s.plans, ids, ds, n);
    DestinationLines(s, picked, d, |picked|)
  }

  lemma OfficialRowsStep(s: Store, ids: seq<Id>, ds: seq<Id>, n: nat, d: Id)
    requires 0 < n <= |ids| && forall l :: l in ids ==> l in s.lines.rows
    ensures var row := s.lines.rows[ids[n - 1]]; var q := Planned(s.plans, d, row.key);
      OfficialRows(s, ids, ds, n, d)
      == OfficialRows(s, ids, ds, n - 1, d)
         + if PlannedTotal(s.plans, ds, row.key, |ds|) > 0 && q != 0 then [PlainLine(row.key, q, row.order)] else []
  {
    var before, l := Picked(s.lines, s.plans, ids, ds, n - 1), ids[n - 1];
    if PlannedTotal(s.plans, ds, s.lines.rows[l].key, |ds|) > 0 {
      DestinationLinesPrefix(s, before, l, d, |before|);
      assert (before + [l])[|before|] == l;
    } else {
      assert before + [] == before;
    }
  }

  lemma OfficialTotalStep(s: Store, ids: seq<Id>, ds: seq<Id>, n: nat, d: Id, key: SourceKey)
    requires 0 < n <= |ids| && forall l :: l in ids ==> l in s.lines.rows
    requires PlannedTotal(s.plans, ds, key, |ds|) > 0 || Planned(s.plans, d, key) == 0
    ensures SeqTotal(OfficialRows(s, ids, ds, n, d), KeyAmount(key, Quantity))
      == SeqTotal(OfficialRows(s, ids, ds, n - 1, d), KeyAmount(key, Quantity))
         + if s.lines.rows[ids[n - 1]].key == key then Planned(s.plans, d, key) as real else 0.0
  {
    var row := s.lines.rows[ids[n - 1]];
    var q := Planned(s.plans, d, row.key);
    OfficialRowsStep(s, ids, ds, n, d);
    SeqTotalMaybe(OfficialRows(s, ids, ds, n - 1, d), PlannedTotal(s.plans, ds, row.key, |ds|) > 0 && q != 0,
                  PlainLine(row.key, q, row.order), KeyAmount(key, Quantity));
  }

  lemma NoOfficialRows(s: Store, ids: seq<Id>, ds: seq<Id>, d: Id)
    requires forall l :: l in ids ==> l in s.lines.rows
    ensures OfficialRows(s, ids, ds, 0, d) == []
  {
  }

  lemma {:induction false} OfficialWithout(s: Store, ids: seq<Id>, ds: seq<Id>, n: nat, d: Id, key: SourceKey)
    requires n <= |ids| && forall l :: l in ids ==> l in s.lines.rows
    requires PlannedTotal(s.plans, ds, key, |ds|) > 0 || Planned(s.plans, d, key) == 0
    requires forall i :: 0 <= i < n ==> s.lines.rows[ids[i]].key != key
    ensures SeqTotal(OfficialRows(s, ids, ds, n, d), KeyAmount(key, Quantity)) == 0.0
  {
    hide OfficialRows, PlannedTotal, Planned, Picked;
    if n == 0 {
      NoOfficialRows(s, ids, ds, d);
    } else {
      OfficialWithout(s, ids, ds, n - 1, d, key);
      OfficialTotalStep(s, ids, ds, n, d, key);
    }
  }

  lemma {:induction false} OfficialWith(s: Store, ids: seq<Id>, ds: seq<Id>, n: nat, d: Id, i: nat)
    requires i < n <= |ids| && DistinctKeys(s.lines, ids)
    requires var key := s.lines.rows[ids[i]].key;
             PlannedTotal(s.plans, ds, key, |ds|) > 0 || Planned(s.plans, d, key) == 0
    ensures var key := s.lines.rows[ids[i]].key;
      SeqTotal(OfficialRows(s, ids, ds, n, d), KeyAmount(key, Quantity)) == Planned(s.plans, d, key) as real
  {
    hide OfficialRows, PlannedTotal, Planned, Picked;
    var key := s.lines.rows[ids[i]].key;
    OfficialTotalStep(s, ids, ds, n, d, key);
    if i == n - 1 {
      OfficialWithout(s, ids, ds, n - 1, d, key);
    } else {
      OfficialWith(s, ids, ds, n - 1, d, i);
    }
  }

  // ---- Both sides meet the plan ----

  lemma TransitLineTotal(s: Store, p: SplitParams, ids: seq<Id>, x: Id, i: nat, m: Measure)
    requires DistinctKeys(s.lines, ids) && i < |ids| && SplitQuantity(s, p, s.lines.rows[ids[i]].key) >= 0
    ensures var row := s.lines.rows[ids[i]];
      SeqTotal(TransitRows(s, p, ids, |ids|, x), KeyAmount(row.key, m))
      == Scaled(row, m, SplitQuantity(s, p, row.key) as real)
  {
    TransitWith(s, p, ids, |ids|, x, i, m);
    ItemLineAmount(s, p, ids[i], m);
  }

  lemma {:induction false} PlannedTotalZero(plans: Table<Plan>, ds: seq<Id>, key: SourceKey, n: nat)
    requires n <= |ds| && forall i :: 0 <= i < n ==> Planned(plans, ds[i], key) == 0
    ensures PlannedTotal(plans, ds, key, n) == 0
  {
    if n > 0 {
      PlannedTotalZero(plans, ds, key, n - 1);
    }
  }

  lemma TransitTotal(s: Store, p: SplitParams, ids: seq<Id>, x: Id, key: SourceKey)
    requires DistinctKeys(s.lines, ids) && PlansCover(s.lines, s.plans, ids, p.dests)
    ensures SeqTotal(TransitRows(s, p, ids, |ids|, x), KeyAmount(key, Quantity)) == SplitQuantity(s, p, key) as real
  {
    PlannedTotalSign(s.plans, p.dests, key, |p.dests|);
    if i :| 0 <= i < |ids| && s.lines.rows[ids[i]].key == key {
      TransitLineTotal(s, p, ids, x, i, Quantity);
    } else {
      PlannedTotalZero(s.plans, p.dests, key, |p.dests|);
      TransitWithout(s, p, ids, |ids|, x, key, Quantity);
    }
  }

  lemma DestinationTotal(s: Store, ids: seq<Id>, ds: seq<Id>, d: Id, key: SourceKey)
    requires DistinctKeys(s.lines, ids) && PlansCover(s.lines, s.plans, ids, ds) && d in ds
    ensures SeqTotal(OfficialRows(s, ids, ds, |ids|, d), KeyAmount(key, Quantity)) == Planned(s.plans, d, key) as real
  {
    PlannedTotalSign(s.plans, ds, key, |ds|);
    var j :| 0 <= j < |ds| && ds[j] == d;
    if i :| 0 <= i < |ids| && s.lines.rows[ids[i]].key == key {
      OfficialWith(s, ids, ds, |ids|, d, i);
    } else {
      OfficialWithout(s, ids, ds, |ids|, d, key);
    }
  }

  function Weights(plans: Table<Plan>, ds: seq<Id>, key: SourceKey): seq<int> {
    seq(|ds|, i requires 0 <= i < |ds| => Planned(plans, ds[i], key))
  }

  lemma {:induction false} WeightsAdded(plans: Table<Plan>, ds: seq<Id>, key: SourceKey, n: nat)
    requires n <= |ds|
    ensures Added(Weights(plans, ds, key), n) == PlannedTotal(plans, ds, key, n)
  {
    if n > 0 {
      WeightsAdded(plans, ds, key, n - 1);
    }
  }

  lemma OfficialTotals(s: Store, ids: seq<Id>, ds: seq<Id>, x: Id, key: SourceKey)
    requires DistinctKeys(s.lines, ids) && PlansCover(s.lines, s.plans, ids, ds)
    requires forall d :: d in ds ==> d in s.dests.rows
    ensures var cs := SplitConsignments(s, Picked(s.lines, s.plans, ids, ds, |ids|), ds);
      SeqTotal(OfficialLines(cs, x, |cs|), KeyAmount(key, Quantity)) == PlannedTotal(s.plans, ds, key, |ds|) as real
  {
    var cs := SplitConsignments(s, Picked(s.lines, s.plans, ids, ds, |ids|), ds);
    forall i | 0 <= i < |ds|
      ensures SeqTotal(cs[i].lines, KeyAmount(key, Quantity)) == Weights(s.plans, ds, key)[i] as real
    {
      DestinationTotal(s, ids, ds, ds[i], key);
    }
    OfficialLinesTotal(cs, x, |cs|, key, Weights(s.plans, ds, key));
    WeightsAdded(s.plans, ds, key, |ds|);
  }
}
