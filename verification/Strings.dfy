/** The string operations the services use, and decimal numerals. */
module Strings {

  predicate StartsWith(s: string, p: string) {
    |p| <= |s| && s[..|p|] == p
  }

  /** Every occurrence of target, left to right and not overlapping, replaced. */
  function ReplaceAll(s: string, target: string, with: string): string
    requires target != ""
  {
    if s == "" then ""
    else if StartsWith(s, target) then with + ReplaceAll(s[|target|..], target, with)
    else [s[0]] + ReplaceAll(s[1..], target, with)
  }

  /** The parts between the separators; one more part than there are separators. */
  function Split(s: string, sep: char): (parts: seq<string>)
    ensures parts != []
  {
    if s == "" then [""]
    else if s[0] == sep then [""] + Split(s[1..], sep)
    else
      var rest := Split(s[1..], sep);
      [[s[0]] + rest[0]] + rest[1..]
  }

  function Join(parts: seq<string>, sep: string): string {
    if parts == [] then "" else if |parts| == 1 then parts[0] else parts[0] + sep + Join(parts[1..], sep)
  }

  lemma DiffersAt(s: string, p: string, i: nat)
    requires i < |p| && i < |s| && s[i] != p[i]
    ensures !StartsWith(s, p)
  {
    if |p| <= |s| {
      assert s[..|p|][i] == s[i];
    }
  }

  /** A stretch without the first character of target is copied. */
  lemma {:induction false} ReplaceSkips(l: string, rest: string, target: string, with: string)
    requires target != "" && target[0] !in l
    ensures ReplaceAll(l + rest, target, with) == l + ReplaceAll(rest, target, with)
  {
    if l == "" {
      assert l + rest == rest;
    } else {
      ReplaceSkips(l[1..], rest, target, with);
      assert (l + rest)[1..] == l[1..] + rest;
      assert (l + rest)[0] == l[0] && l[0] in l;
      DiffersAt(l + rest, target, 0);
      assert l == [l[0]] + l[1..];
    }
  }

  lemma ReplaceHits(rest: string, target: string, with: string)
    requires target != ""
    ensures ReplaceAll(target + rest, target, with) == with + ReplaceAll(rest, target, with)
  {
    assert (target + rest)[..|target|] == target && (target + rest)[|target|..] == rest;
  }

  lemma ReplaceNothing(s: string, target: string, with: string)
    requires target != "" && target[0] !in s
    ensures ReplaceAll(s, target, with) == s
  {
    ReplaceSkips(s, "", target, with);
    assert s + "" == s;
  }

  function Drop(s: string, n: nat): string {
    if n <= |s| then s[n..] else ""
  }

  lemma {:induction false} SplitConcat(a: string, b: string, sep: char)
    ensures Split(a + [sep] + b, sep) == Split(a, sep) + Split(b, sep)
  {
    var s := a + [sep] + b;
    if a == "" {
      assert s[1..] == b && s[0] == sep;
    } else {
      assert s[1..] == a[1..] + [sep] + b && s[0] == a[0];
      SplitConcat(a[1..], b, sep);
    }
  }

  lemma {:induction false} SplitNone(a: string, sep: char)
    requires sep !in a
    ensures Split(a, sep) == [a]
  {
    if a != "" {
      SplitNone(a[1..], sep);
      assert [a[0]] + a[1..] == a;
    }
  }

  // ---- Decimal numerals ----

  predicate IsDigit(c: char) {
    '0' <= c <= '9'
  }

  function DigitChar(d: nat): (c: char)
    requires d < 10
    ensures IsDigit(c) && DigitOf(c) == d
  {
    '0' + d as char
  }

  function TwoDigits(n: nat): string
    requires n < 100
  {
    [DigitChar(n / 10), DigitChar(n % 10)]
  }

  function Decimal(n: nat): (s: string)
    ensures s != "" && forall c :: c in s ==> IsDigit(c)
  {
    if n < 10 then [DigitChar(n)] else Decimal(n / 10) + [DigitChar(n % 10)]
  }

  function Zeros(n: nat): (s: string)
    ensures |s| == n && forall c :: c in s ==> c == '0'
  {
    if n == 0 then "" else "0" + Zeros(n - 1)
  }

  /** Zero-padded to a width. */
  function Padded(n: nat, width: nat): (s: string)
    ensures |s| >= width && s != "" && forall c :: c in s ==> IsDigit(c)
  {
    var s := Decimal(n);
    if |s| < width then Zeros(width - |s|) + s else s
  }

  function DigitOf(c: char): (d: nat)
    requires IsDigit(c)
    ensures d < 10
  {
    c as int - '0' as int
  }

  /** The number a digit string denotes. */
  function Value(s: string): nat
    requires forall c :: c in s ==> IsDigit(c)
  {
    if s == "" then 0 else 10 * Value(s[..|s| - 1]) + DigitOf(s[|s| - 1])
  }

  lemma {:induction false} ValueOfDecimal(n: nat)
    ensures Value(Decimal(n)) == n
  {
    if n < 10 {
      assert Decimal(n)[..0] == "";
    } else {
      ValueOfDecimal(n / 10);
      assert Decimal(n)[..|Decimal(n)| - 1] == Decimal(n / 10);
    }
  }

  lemma {:induction false} LeadingZeros(k: nat, s: string)
    requires forall c :: c in s ==> IsDigit(c)
    ensures Value(Zeros(k) + s) == Value(s)
  {
    if s != "" {
      LeadingZeros(k, s[..|s| - 1]);
      assert (Zeros(k) + s)[..|Zeros(k) + s| - 1] == Zeros(k) + s[..|s| - 1];
    } else if k > 0 {
      LeadingZeros(k - 1, "");
      assert Zeros(k) + "" == Zeros(k - 1) + "0" by { ZerosEnd(k); }
      assert (Zeros(k) + "")[..k - 1] == Zeros(k - 1) + "";
    }
  }

  lemma {:induction false} ZerosEnd(k: nat)
    requires k > 0
    ensures Zeros(k) == Zeros(k - 1) + "0"
  {
    if k > 1 {
      ZerosEnd(k - 1);
    }
  }

  /** A padded numeral denotes its number, whatever the width. */
  lemma ValueOfPadded(n: nat, width: nat)
    ensures Value(Padded(n, width)) == n
  {
    ValueOfDecimal(n);
    if |Decimal(n)| < width {
      LeadingZeros(width - |Decimal(n)|, Decimal(n));
    }
  }
}
