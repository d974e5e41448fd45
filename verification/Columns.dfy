/** services/address_export.go: spreadsheet column names, which are bijective base-26 numerals. */
module Columns {

  predicate IsCapital(c: char) {
    'A' <= c <= 'Z'
  }

  function Letter(d: nat): (c: char)
    requires d < 26
    ensures IsCapital(c) && c as int - 'A' as int == d
  {
    'A' + d as char
  }

  /** The name of a column; no name before column 0. */
  function ColumnName(index: int): (name: string)
    decreases index + 1
  {
    if index < 0 then "" else ColumnName(index / 26 - 1) + [Letter(index % 26)]
  }

  /** addrColName */
  method AddrColName(index: int) returns (name: string)
    ensures name == ColumnName(index)
  {
    var rest := index;
    name := "";
    assert ColumnName(index) + "" == ColumnName(index);
    while rest >= 0
      invariant ColumnName(index) == ColumnName(rest) + name
      decreases rest + 1
    {
      assert ColumnName(rest) + name == ColumnName(rest / 26 - 1) + ([Letter(rest % 26)] + name);
      name := [Letter(rest % 26)] + name;
      rest := rest / 26 - 1;
    }
    assert "" + name == name;
  }

  predicate IsName(s: string) {
    s != "" && forall c :: c in s ==> IsCapital(c)
  }

  function Position(c: char): (p: nat)
    requires IsCapital(c)
    ensures 1 <= p <= 26
  {
    c as int - 'A' as int + 1
  }

  /** Bijective base 26: the digits run from A = 1 to Z = 26. */
  function Decode(s: string): nat
    requires forall c :: c in s ==> IsCapital(c)
  {
    if s == "" then 0 else 26 * Decode(s[..|s| - 1]) + Position(s[|s| - 1])
  }

  lemma {:induction false} NamesAreLetters(index: int)
    ensures forall c :: c in ColumnName(index) ==> IsCapital(c)
    ensures index >= 0 <==> ColumnName(index) != ""
    decreases index + 1
  {
    if index >= 0 {
      NamesAreLetters(index / 26 - 1);
    }
  }

  /** Decoding a column name gives its position, counted from 1. */
  lemma {:induction false} DecodeName(index: nat)
    ensures IsName(ColumnName(index)) && Decode(ColumnName(index)) == index + 1
    decreases index
  {
    NamesAreLetters(index);
    var prefix := ColumnName(index / 26 - 1);
    assert ColumnName(index)[..|ColumnName(index)| - 1] == prefix;
    if index >= 26 {
      DecodeName(index / 26 - 1);
    }
  }

  /** Every non-empty string of capital letters is the name of exactly the column it decodes to. */
  lemma {:induction false} NameOfDecoded(s: string)
    requires IsName(s)
    ensures Decode(s) > 0 && ColumnName(Decode(s) - 1) == s
  {
    var prefix, d := s[..|s| - 1], s[|s| - 1] as int - 'A' as int;
    assert s[|s| - 1] in s;
    if prefix != "" {
      NameOfDecoded(prefix);
    }
    assert (Decode(s) - 1) / 26 == Decode(prefix) && (Decode(s) - 1) % 26 == d;
    assert s == prefix + [Letter(d)];
  }

  // ---- Order ----

  /** Of the same length, and smaller at the first difference. */
  ghost predicate LexLess(a: string, b: string) {
    |a| == |b| && exists k :: 0 <= k < |a| && a[..k] == b[..k] && a[k] < b[k]
  }

  ghost predicate Before(a: string, b: string) {
    |a| < |b| || LexLess(a, b)
  }

  lemma LexAppend(a: string, b: string, c: char, d: char)
    requires LexLess(a, b)
    ensures LexLess(a + [c], b + [d])
  {
    var k :| 0 <= k < |a| && a[..k] == b[..k] && a[k] < b[k];
    assert (a + [c])[..k] == a[..k] && (b + [d])[..k] == b[..k];
  }

  lemma LexLast(a: string, c: char, d: char)
    requires c < d
    ensures LexLess(a + [c], a + [d])
  {
    var k := |a|;
    assert (a + [c])[..k] == a == (a + [d])[..k];
    assert (a + [c])[k] < (a + [d])[k];
  }

  /** Later columns have longer names, or alphabetically later names of the same length. */
  lemma {:induction false} NamesOrdered(i: nat, j: nat)
    requires i < j
    ensures Before(ColumnName(i), ColumnName(j))
    decreases j
  {
    var a, b := i / 26 - 1, j / 26 - 1;
    NamesAreLetters(a);
    NamesAreLetters(b);
    if a == b {
      LexLast(ColumnName(a), Letter(i % 26), Letter(j % 26));
    } else if a >= 0 {
      NamesOrdered(a, b);
      if LexLess(ColumnName(a), ColumnName(b)) {
        LexAppend(ColumnName(a), ColumnName(b), Letter(i % 26), Letter(j % 26));
      }
    }
  }
}
