/** Quantities and amounts: what the tables of one step say about group totals. */
module Accounts {
  import opened Tables
  import opened Sums
  import opened Records
  import opened Shipments
  import opened Invariants

  // ---- Totals that a step leaves alone ----

  ghost predicate OnMember(dcs: Table<Challan>, l: Line, g: Id) {
    l.dc in dcs.rows && dcs.rows[l.dc].group == g
  }

  /** A step keeps the lines that lie on the members of g, and the kinds of those members. */
  ghost predicate GroupKept(dcs: Table<Challan>, dcs': Table<Challan>, lines: Table<Line>, lines': Table<Line>, g: Id) {
    && (forall l :: l in lines.rows && OnMember(dcs, lines.rows[l], g) ==>
          l in lines'.rows && lines'.rows[l] == lines.rows[l] && OnMember(dcs', lines.rows[l], g)
          && dcs'.rows[lines.rows[l].dc].kind == dcs.rows[lines.rows[l].dc].kind)
    && (forall l :: l in lines'.rows && OnMember(dcs', lines'.rows[l], g) ==>
          l in lines.rows && lines'.rows[l] == lines.rows[l] && OnMember(dcs, lines.rows[l], g))
  }

  lemma KeptTotal(dcs: Table<Challan>, dcs': Table<Challan>, lines: Table<Line>, lines': Table<Line>,
                  g: Id, kind: Kind, key: SourceKey, m: Measure)
    requires GroupKept(dcs, dcs', lines, lines', g)
    ensures GroupTotal(dcs', lines', g, kind, key, m) == GroupTotal(dcs, lines, g, kind, key, m)
  {
    SumSupport(lines.rows.Keys, lines'.rows.Keys,
               At(lines.rows, OnGroup(dcs, g, kind, key, m)), At(lines'.rows, OnGroup(dcs', g, kind, key, m)));
  }

  lemma KeptBalance(dcs: Table<Challan>, dcs': Table<Challan>, lines: Table<Line>, lines': Table<Line>, g: Id)
    requires GroupKept(dcs, dcs', lines, lines', g) && GroupBalances(dcs, lines, g)
    ensures GroupBalances(dcs', lines', g)
  {
    forall key
      ensures GroupTotal(dcs', lines', g, Transit, key, Quantity) == GroupTotal(dcs', lines', g, Official, key, Quantity)
    {
      KeptTotal(dcs, dcs', lines, lines', g, Transit, key, Quantity);
      KeptTotal(dcs, dcs', lines, lines', g, Official, key, Quantity);
    }
  }

  ghost predicate PlansKept(plans: Table<Plan>, plans': Table<Plan>, ds: set<Id>) {
    && (forall p :: p in plans.rows && plans.rows[p].destination in ds ==> p in plans'.rows && plans'.rows[p] == plans.rows[p])
    && (forall p :: p in plans'.rows && plans'.rows[p].destination in ds ==> p in plans.rows && plans'.rows[p] == plans.rows[p])
  }

  lemma KeptPlanned(plans: Table<Plan>, plans': Table<Plan>, ds: set<Id>, key: SourceKey)
    requires PlansKept(plans, plans', ds)
    ensures PlannedFor(plans', ds, key) == PlannedFor(plans, ds, key)
  {
    forall d | d in ds
      ensures Planned(plans', d, key) == Planned(plans, d, key)
    {
      assert PlansFor(plans', d, key) == PlansFor(plans, d, key);
    }
    SumSame(ds, PlannedAt(plans', key), PlannedAt(plans, key));
  }

  ghost predicate LinesKept(lines: Table<Line>, lines': Table<Line>, dc: Id) {
    && (forall l :: l in lines.rows && lines.rows[l].dc == dc ==> l in lines'.rows && lines'.rows[l] == lines.rows[l])
    && (forall l :: l in lines'.rows && lines'.rows[l].dc == dc ==> l in lines.rows && lines'.rows[l] == lines.rows[l])
  }

  lemma KeptParent(lines: Table<Line>, lines': Table<Line>, plans: Table<Plan>, plans': Table<Plan>, dc: Id, ds: set<Id>)
    requires LinesKept(lines, lines', dc) && PlansKept(plans, plans', ds) && ParentLinesOk(lines, plans, dc, ds)
    ensures ParentLinesOk(lines', plans', dc, ds)
  {
    assert LinesOf(lines', dc) == LinesOf(lines, dc);
    forall l | l in LinesOf(lines, dc)
      ensures CarriesPlan(lines'.rows[l], plans', ds)
    {
      KeptPlanned(plans, plans', ds, lines.rows[l].key);
      assert CarriesPlan(lines.rows[l], plans, ds);
    }
  }

  lemma KeptCarries(dcs: Table<Challan>, dcs': Table<Challan>, lines: Table<Line>, lines': Table<Line>,
                    g: Id, line: Line, planned: real)
    requires GroupKept(dcs, dcs', lines, lines', g) && Carries(dcs, lines, g, line, planned)
    ensures Carries(dcs', lines', g, line, planned)
  {
    forall m
      ensures GroupTotal(dcs', lines', g, Transit, line.key, m) == Scaled(line, m, planned)
    {
      KeptTotal(dcs, dcs', lines, lines', g, Transit, line.key, m);
    }
  }

  lemma KeptChild(s: Store, a: Store, g: Id, l: Id)
    requires g in s.groups.rows && l in s.lines.rows && ChildCarries(s, g, l)
    requires g in a.groups.rows && a.groups.rows[g].transfer == s.groups.rows[g].transfer
    requires l in a.lines.rows && a.lines.rows[l] == s.lines.rows[l]
    requires GroupKept(s.dcs, a.dcs, s.lines, a.lines, g)
    requires Block(a.dests, s.groups.rows[g].transfer, g) == Block(s.dests, s.groups.rows[g].transfer, g)
    requires PlansKept(s.plans, a.plans, Block(s.dests, s.groups.rows[g].transfer, g))
    ensures ChildCarries(a, g, l)
  {
    var key, block := s.lines.rows[l].key, Block(s.dests, s.groups.rows[g].transfer, g);
    KeptPlanned(s.plans, a.plans, block, key);
    KeptCarries(s.dcs, a.dcs, s.lines, a.lines, g, s.lines.rows[l], PlannedFor(s.plans, block, key));
  }

  // ---- Totals of freshly inserted lines ----

  ghost function KeyAmount(key: SourceKey, m: Measure): Line -> real {
    (l: Line) => if l.key == key then Amount(l, m) else 0.0
  }

  lemma PricedAmount(key: SourceKey, quantity: int, rate: real, taxPercent: real, order: nat, m: Measure)
    ensures var l := PricedLine(key, quantity, rate, taxPercent, order);
      Amount(l, m) == Scaled(l, m, quantity as real)
  {
  }

  /** A new group's totals, from the rows inserted for it. */
  lemma NewGroupTotal(dcs: Table<Challan>, lines: Table<Line>, items: seq<Line>, officials: seq<Line>,
                      g: Id, x: Id, n: nat, key: SourceKey, m: Measure)
    requires lines.Valid()
    requires forall l :: l in lines.rows ==> !OnMember(dcs, lines.rows[l], g)
    requires forall d :: x <= d <= x + n ==>
      d in dcs.rows && dcs.rows[d].group == g && dcs.rows[d].kind == if d == x then Transit else Official
    requires forall r :: r in items ==> r.dc == x
    requires forall r :: r in officials ==> x < r.dc <= x + n
    ensures var u := lines.InsertAll(items + officials);
      && GroupTotal(dcs, u, g, Transit, key, m) == SeqTotal(items, KeyAmount(key, m))
      && GroupTotal(dcs, u, g, Official, key, m) == SeqTotal(officials, KeyAmount(key, m))
  {
    var f, h := OnGroup(dcs, g, Transit, key, m), OnGroup(dcs, g, Official, key, m);
    TotalInsertAll(lines, items + officials, f);
    TotalInsertAll(lines, items + officials, h);
    TotalZero(lines.rows, f);
    TotalZero(lines.rows, h);
    SeqTotalConcat(items, officials, f);
    SeqTotalConcat(items, officials, h);
    SeqTotalSame(items, f, KeyAmount(key, m));
    SeqTotalZero(officials, f);
    SeqTotalZero(items, h);
    SeqTotalSame(officials, h, KeyAmount(key, m));
  }

  lemma {:induction false} OfficialLinesTotal(cs: seq<Consignment>, first: Id, n: nat, key: SourceKey, weights: seq<int>)
    requires n <= |cs| && |weights| == |cs|
    requires forall i :: 0 <= i < n ==> SeqTotal(cs[i].lines, KeyAmount(key, Quantity)) == weights[i] as real
    ensures SeqTotal(OfficialLines(cs, first, n), KeyAmount(key, Quantity)) == Added(weights, n) as real
  {
    if n > 0 {
      OfficialLinesTotal(cs, first, n - 1, key, weights);
      SeqTotalConcat(OfficialLines(cs, first, n - 1), Addressed(cs[n - 1].lines, first + n - 1), KeyAmount(key, Quantity));
      AddressedTotal(cs[n - 1].lines, first + n - 1, key);
    }
  }

  function Added(ws: seq<int>, n: nat): int
    requires n <= |ws|
  {
    if n == 0 then 0 else Added(ws, n - 1) + ws[n - 1]
  }

  lemma {:induction false} AddressedTotal(lines: seq<Line>, dc: Id, key: SourceKey)
    ensures SeqTotal(Addressed(lines, dc), KeyAmount(key, Quantity)) == SeqTotal(lines, KeyAmount(key, Quantity))
  {
    if lines != [] {
      var n := |lines| - 1;
      AddressedTotal(lines[..n], dc, key);
      assert Addressed(lines, dc)[..n] == Addressed(lines[..n], dc);
    }
  }
}
