/** A collection of records: rows by id, and the id the next new record gets.
    Ids are handed out in creation order and never reused; 0 is the blank reference. */
module Tables {

  type Id = nat

  /** The n ids from first on. */
  function IdRange(first: Id, n: nat): (ids: set<Id>)
    ensures forall i: Id :: i in ids <==> first <= i < first + n
  {
    if n == 0 then {} else IdRange(first, n - 1) + {first + n - 1}
  }

  datatype Table<R> = Table(rows: map<Id, R>, next: Id) {

    ghost predicate Valid() {
      0 < next && forall i :: i in rows ==> 0 < i < next
    }

    function Insert(r: R): Table<R> {
      Table(rows[next := r], next + 1)
    }

    function Update(i: Id, r: R): Table<R> {
      this.(rows := rows[i := r])
    }

    function Delete(ids: set<Id>): Table<R> {
      this.(rows := rows - ids)
    }

    /** The table after inserting the records of rs one after another. */
    function InsertAll(rs: seq<R>): (u: Table<R>)
      ensures u.next == next + |rs|
    {
      if rs == [] then this else InsertAll(rs[..|rs| - 1]).Insert(rs[|rs| - 1])
    }
  }

  /** Record k of rs ends up at the k-th new id. */
  lemma {:induction false} Inserted<R>(t: Table<R>, rs: seq<R>)
    requires t.Valid()
    ensures var u := t.InsertAll(rs);
      && u.Valid()
      && (forall i :: i in u.rows <==> i in t.rows || t.next <= i < t.next + |rs|)
      && (forall i :: i in t.rows ==> u.rows[i] == t.rows[i])
      && (forall i :: t.next <= i < t.next + |rs| ==> u.rows[i] == rs[i - t.next])
  {
    if rs != [] {
      Inserted(t, rs[..|rs| - 1]);
    }
  }

  /** u has the rows of t, plus new ones that are all among rs. */
  ghost predicate Extends<R(!new)>(t: Table<R>, u: Table<R>, rs: seq<R>) {
    && u.Valid() && t.next <= u.next
    && (forall i :: i in t.rows ==> i in u.rows && u.rows[i] == t.rows[i])
    && (forall i :: i in u.rows && i !in t.rows ==> t.next <= i && u.rows[i] in rs)
  }

  lemma InsertAllExtends<R(!new)>(t: Table<R>, rs: seq<R>)
    requires t.Valid()
    ensures Extends(t, t.InsertAll(rs), rs)
  {
    Inserted(t, rs);
  }

  lemma InsertAllAt<R>(t: Table<R>, rs: seq<R>, k: nat)
    requires t.Valid() && k < |rs|
    ensures t.next + k in t.InsertAll(rs).rows && t.InsertAll(rs).rows[t.next + k] == rs[k]
  {
    Inserted(t, rs);
  }

  lemma InsertAllNone<R>(t: Table<R>)
    ensures t.InsertAll([]) == t
  {
  }

  lemma InsertAllOne<R>(t: Table<R>, rs: seq<R>, r: R)
    ensures t.InsertAll(rs + [r]) == t.InsertAll(rs).Insert(r)
  {
    assert (rs + [r])[..|rs|] == rs;
  }

  lemma {:induction false} InsertAllConcat<R>(t: Table<R>, rs: seq<R>, qs: seq<R>)
    ensures t.InsertAll(rs + qs) == t.InsertAll(rs).InsertAll(qs)
  {
    if qs == [] {
      assert rs + qs == rs;
      InsertAllNone(t.InsertAll(rs));
    } else {
      var n := |qs| - 1;
      InsertAllConcat(t, rs, qs[..n]);
      assert qs == qs[..n] + [qs[n]];
      assert rs + qs == (rs + qs[..n]) + [qs[n]];
      InsertAllOne(t, rs + qs[..n], qs[n]);
      InsertAllOne(t.InsertAll(rs), qs[..n], qs[n]);
    }
  }

  /** The next step of a loop that inserts the records of all one after another. */
  lemma NextInserted<R>(t: Table<R>, u: Table<R>, rs: seq<R>, r: R, all: seq<R>)
    requires u == t.InsertAll(rs) && all == rs + [r]
    ensures u.next == t.next + |rs| && u.Insert(r) == t.InsertAll(all)
  {
    InsertAllOne(t, rs, r);
  }

  /** The next step of a loop that inserts a run of records at a time. */
  lemma NextInsertedAll<R>(t: Table<R>, u: Table<R>, rs: seq<R>, qs: seq<R>, all: seq<R>)
    requires u == t.InsertAll(rs) && all == rs + qs
    ensures u.InsertAll(qs) == t.InsertAll(all)
  {
    InsertAllConcat(t, rs, qs);
  }

  /** n consecutive ids. */
  function IdsFrom(first: Id, n: nat): (ids: seq<Id>)
    ensures |ids| == n && forall i :: 0 <= i < n ==> ids[i] == first + i
  {
    seq(n, i => first + i)
  }

  lemma NextId(first: Id, n: nat)
    ensures IdsFrom(first, n + 1) == IdsFrom(first, n) + [first + n]
  {
  }

  function IdsIn(ids: seq<Id>): set<Id> {
    set i | i in ids
  }

  // ---- Query results in creation order ----

  ghost predicate IsLeast(m: Id, s: set<Id>) {
    m in s && forall x: Id :: x in s ==> m <= x
  }

  lemma LeastExists(s: set<Id>)
    requires s != {}
    ensures exists m :: IsLeast(m, s)
  {
    var y :| y in s;
    if s == {y} {
      assert IsLeast(y, s);
    } else {
      LeastExists(s - {y});
      var m :| IsLeast(m, s - {y});
      assert forall x: Id :: x in s ==> x == y || x in s - {y};
      assert IsLeast(if m < y then m else y, s);
    }
  }

  function Least(s: set<Id>): (m: Id)
    requires s != {}
    ensures m in s && forall x: Id :: x in s ==> m <= x
  {
    LeastExists(s);
    assert exists m :: m in s && forall x: Id :: x in s ==> m <= x by {
      var l :| IsLeast(l, s);
    }
    var m :| m in s && forall x: Id :: x in s ==> m <= x;
    m
  }

  lemma LeastFirst(s: set<Id>, m: Id, rest: seq<Id>)
    requires m in s && (forall x: Id :: x in s ==> m <= x) && forall x :: x in rest <==> x in s - {m}
    requires forall i, j :: 0 <= i < j < |rest| ==> rest[i] < rest[j]
    ensures var ids := [m] + rest;
      && (forall x :: x in ids <==> x in s)
      && forall i, j :: 0 <= i < j < |ids| ==> ids[i] < ids[j]
  {
    assert forall i :: 0 <= i < |rest| ==> rest[i] in rest;
  }

  /** The ids of s, oldest first. */
  function Ascending(s: set<Id>): (ids: seq<Id>)
    ensures forall x :: x in ids <==> x in s
    ensures forall i, j :: 0 <= i < j < |ids| ==> ids[i] < ids[j]
    ensures |ids| == |s|
  {
    if s == {} then [] else
      var m := Least(s);
      var rest := Ascending(s - {m});
      LeastFirst(s, m, rest);
      [m] + rest
  }

  lemma LeastStays(ids: set<Id>, n: Id)
    requires ids != {} && forall i :: i in ids ==> i < n
    ensures Least(ids + {n}) == Least(ids)
  {
    var m, k := Least(ids), Least(ids + {n});
    assert m in ids + {n} && (k in ids || k == n);
  }

  lemma AscendingOne(n: Id)
    ensures Ascending({n}) == [n]
  {
    assert {n} - {n} == {};
  }

  lemma {:induction false} AscendingNext(ids: set<Id>, n: Id)
    requires forall i :: i in ids ==> i < n
    ensures Ascending(ids + {n}) == Ascending(ids) + [n]
  {
    if ids == {} {
      AscendingOne(n);
      assert ids + {n} == {n};
    } else {
      var m := Least(ids);
      LeastStays(ids, n);
      assert ids + {n} - {m} == (ids - {m}) + {n};
      AscendingNext(ids - {m}, n);
    }
  }

  lemma AscendingNone()
    ensures Ascending({}) == []
  {
  }

  lemma RangeNone(first: Id)
    ensures IdRange(first, 0) == {} && IdsFrom(first, 0) == []
  {
  }

  lemma RangeNext(first: Id, n: nat, ids: set<Id>)
    requires ids == IdRange(first, n)
    ensures IdRange(first, n + 1) == ids + {first + n}
    ensures forall i :: i in ids ==> i < first + n
  {
  }

  lemma AscendingRangeNext(first: Id, n: nat)
    requires Ascending(IdRange(first, n)) == IdsFrom(first, n)
    ensures Ascending(IdRange(first, n + 1)) == IdsFrom(first, n + 1)
  {
    hide *;
    RangeNext(first, n, IdRange(first, n));
    AscendingNext(IdRange(first, n), first + n);
    NextId(first, n);
  }

  lemma {:induction false} AscendingRange(first: Id, n: nat)
    ensures Ascending(IdRange(first, n)) == IdsFrom(first, n)
  {
    hide *;
    if n == 0 {
      RangeNone(first);
      AscendingNone();
    } else {
      AscendingRange(first, n - 1);
      AscendingRangeNext(first, n - 1);
    }
  }
}
