/** Sums over finite sets of ids and over the rows of a table. */
module Sums {
  import opened Tables

  ghost function Sum(s: set<Id>, f: Id -> real): real {
    if s == {} then 0.0 else
      var x :| x in s;
      f(x) + Sum(s - {x}, f)
  }

  lemma {:induction false} SumPick(s: set<Id>, f: Id -> real, x: Id)
    requires x in s
    ensures Sum(s, f) == f(x) + Sum(s - {x}, f)
    decreases s
  {
    var y :| y in s && Sum(s, f) == f(y) + Sum(s - {y}, f);
    if y != x {
      SumPick(s - {y}, f, x);
      SumPick(s - {x}, f, y);
      assert s - {y} - {x} == s - {x} - {y};
    }
  }

  lemma {:induction false} SumUnion(a: set<Id>, b: set<Id>, f: Id -> real)
    requires a !! b
    ensures Sum(a + b, f) == Sum(a, f) + Sum(b, f)
  {
    if a == {} {
      assert a + b == b;
    } else {
      var x :| x in a;
      SumUnion(a - {x}, b, f);
      SumPick(a, f, x);
      SumPick(a + b, f, x);
      assert a + b - {x} == (a - {x}) + b;
    }
  }

  lemma {:induction false} SumSame(s: set<Id>, f: Id -> real, g: Id -> real)
    requires forall x :: x in s ==> f(x) == g(x)
    ensures Sum(s, f) == Sum(s, g)
  {
    if s != {} {
      var x :| x in s;
      SumSame(s - {x}, f, g);
      SumPick(s, f, x);
      SumPick(s, g, x);
    }
  }

  lemma {:induction false} SumZero(s: set<Id>, f: Id -> real)
    requires forall x :: x in s ==> f(x) == 0.0
    ensures Sum(s, f) == 0.0
  {
    if s != {} {
      var x :| x in s;
      SumZero(s - {x}, f);
      SumPick(s, f, x);
    }
  }

  /** The members of ds that owner sends to g. */
  ghost function Fiber(ds: set<Id>, owner: Id -> Id, g: Id): set<Id> {
    set d | d in ds && owner(d) == g
  }

  ghost function FiberSum(ds: set<Id>, owner: Id -> Id, f: Id -> real): Id -> real {
    (g: Id) => Sum(Fiber(ds, owner, g), f)
  }

  /** Summing block by block is summing over everything that lies in some block. */
  lemma {:induction false} SumFibers(gs: set<Id>, ds: set<Id>, owner: Id -> Id, f: Id -> real)
    ensures Sum(gs, FiberSum(ds, owner, f)) == Sum((set d | d in ds && owner(d) in gs), f)
  {
    if gs == {} {
      assert (set d | d in ds && owner(d) in gs) == {};
    } else {
      var g :| g in gs;
      SumFibers(gs - {g}, ds, owner, f);
      SumPick(gs, FiberSum(ds, owner, f), g);
      var rest := set d | d in ds && owner(d) in gs - {g};
      SumUnion(Fiber(ds, owner, g), rest, f);
      assert (set d | d in ds && owner(d) in gs) == Fiber(ds, owner, g) + rest;
    }
  }

  // ---- Sums over table rows ----

  ghost function SeqTotal<R>(rs: seq<R>, f: R -> real): real {
    if rs == [] then 0.0 else SeqTotal(rs[..|rs| - 1], f) + f(rs[|rs| - 1])
  }

  lemma SeqTotalAppend<R>(rs: seq<R>, r: R, f: R -> real)
    ensures SeqTotal(rs + [r], f) == SeqTotal(rs, f) + f(r)
  {
    assert (rs + [r])[..|rs|] == rs;
  }

  lemma SeqTotalMaybe<R>(rs: seq<R>, take: bool, r: R, f: R -> real)
    ensures SeqTotal(rs + if take then [r] else [], f) == SeqTotal(rs, f) + if take then f(r) else 0.0
  {
    if take {
      SeqTotalAppend(rs, r, f);
    } else {
      assert rs + [] == rs;
    }
  }

  lemma {:induction false} SeqTotalConcat<R>(rs: seq<R>, qs: seq<R>, f: R -> real)
    ensures SeqTotal(rs + qs, f) == SeqTotal(rs, f) + SeqTotal(qs, f)
  {
    if qs == [] {
      assert rs + qs == rs;
    } else {
      var n := |qs| - 1;
      SeqTotalConcat(rs, qs[..n], f);
      assert qs == qs[..n] + [qs[n]];
      assert rs + qs == (rs + qs[..n]) + [qs[n]];
      SeqTotalAppend(rs + qs[..n], qs[n], f);
    }
  }

  lemma {:induction false} SeqTotalZero<R>(rs: seq<R>, f: R -> real)
    requires forall k :: 0 <= k < |rs| ==> f(rs[k]) == 0.0
    ensures SeqTotal(rs, f) == 0.0
  {
    if rs != [] {
      SeqTotalZero(rs[..|rs| - 1], f);
    }
  }

  ghost function At<R>(rows: map<Id, R>, f: R -> real): Id -> real {
    (i: Id) => if i in rows then f(rows[i]) else 0.0
  }

  /** The sum of f over all rows. */
  ghost function Total<R>(rows: map<Id, R>, f: R -> real): real {
    Sum(rows.Keys, At(rows, f))
  }

  lemma {:induction false} TotalInsertAll<R>(t: Table<R>, rs: seq<R>, f: R -> real)
    requires t.Valid()
    ensures Total(t.InsertAll(rs).rows, f) == Total(t.rows, f) + SeqTotal(rs, f)
  {
    if rs == [] {
      InsertAllNone(t);
    } else {
      var n := |rs| - 1;
      var u := t.InsertAll(rs[..n]);
      TotalInsertAll(t, rs[..n], f);
      assert rs == rs[..n] + [rs[n]];
      InsertAllOne(t, rs[..n], rs[n]);
      var v := t.InsertAll(rs);
      assert v.rows == u.rows[u.next := rs[n]];
      Inserted(t, rs[..n]);
      SumPick(v.rows.Keys, At(v.rows, f), u.next);
      assert v.rows.Keys - {u.next} == u.rows.Keys;
      SumSame(u.rows.Keys, At(u.rows, f), At(v.rows, f));
    }
  }

  lemma TotalZero<R>(rows: map<Id, R>, f: R -> real)
    requires forall i :: i in rows ==> f(rows[i]) == 0.0
    ensures Total(rows, f) == 0.0
  {
    SumZero(rows.Keys, At(rows, f));
  }

  lemma {:induction false} SeqTotalSame<R>(rs: seq<R>, f: R -> real, g: R -> real)
    requires forall k :: 0 <= k < |rs| ==> f(rs[k]) == g(rs[k])
    ensures SeqTotal(rs, f) == SeqTotal(rs, g)
  {
    if rs != [] {
      SeqTotalSame(rs[..|rs| - 1], f, g);
    }
  }

  /** Sums agree when they agree where both are defined and are zero elsewhere. */
  lemma SumSupport(a: set<Id>, b: set<Id>, f: Id -> real, g: Id -> real)
    requires forall x :: x in a && x in b ==> f(x) == g(x)
    requires forall x :: x in a && x !in b ==> f(x) == 0.0
    requires forall x :: x in b && x !in a ==> g(x) == 0.0
    ensures Sum(a, f) == Sum(b, g)
  {
    assert a == (a * b) + (a - b) && b == (a * b) + (b - a);
    SumUnion(a * b, a - b, f);
    SumUnion(a * b, b - a, g);
    SumZero(a - b, f);
    SumZero(b - a, g);
    SumSame(a * b, f, g);
  }
}
