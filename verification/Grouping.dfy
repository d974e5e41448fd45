/** services/format.go: Indian digit grouping, and rupee amounts given in whole paise. */
module Grouping {
  import opened Strings

  /** A digit string cut into pairs from the right; the first group has one or two. */
  function Pairs(s: string): (groups: seq<string>)
    requires s != ""
    ensures groups != []
  {
    if |s| <= 2 then [s] else Pairs(s[..|s| - 2]) + [s[|s| - 2..]]
  }

  function Groups(s: string): (groups: seq<string>)
    ensures groups != []
  {
    if |s| <= 3 then [s] else Pairs(s[..|s| - 3]) + [s[|s| - 3..]]
  }

  /** applyIndianGrouping */
  method ApplyIndianGrouping(s: string) returns (result: string)
    ensures result == Join(Groups(s), ",")
  {
    var n := |s|;
    if n <= 3 {
      return s;
    }
    result := s[n - 3..];
    var remaining := s[..n - 3];
    ghost var done := [result];
    while |remaining| > 2
      invariant remaining != "" && done != [] && result == Join(done, ",")
      invariant Groups(s) == Pairs(remaining) + done
      decreases |remaining|
    {
      var group := remaining[|remaining| - 2..];
      JoinFront(group, done);
      assert Pairs(remaining) + done == Pairs(remaining[..|remaining| - 2]) + ([group] + done);
      result := group + "," + result;
      remaining := remaining[..|remaining| - 2];
      done := [group] + done;
    }
    if |remaining| > 0 {
      JoinFront(remaining, done);
      result := remaining + "," + result;
    }
  }

  lemma JoinFront(group: string, groups: seq<string>)
    requires groups != []
    ensures Join([group] + groups, ",") == group + "," + Join(groups, ",")
  {
    assert ([group] + groups)[1..] == groups;
  }

  // ---- The shape of the groups ----

  function Concat(groups: seq<string>): string {
    if groups == [] then "" else Concat(groups[..|groups| - 1]) + groups[|groups| - 1]
  }

  lemma {:induction false} PairsShape(s: string)
    requires s != ""
    ensures var groups := Pairs(s);
      && Concat(groups) == s && |groups| == (|s| + 1) / 2 && 1 <= |groups[0]| <= 2
      && forall k :: 0 < k < |groups| ==> |groups[k]| == 2
  {
    var groups := Pairs(s);
    if |s| <= 2 {
      assert groups[..0] == [];
    } else {
      PairsShape(s[..|s| - 2]);
      assert groups[..|groups| - 1] == Pairs(s[..|s| - 2]);
    }
  }

  /** The groups make up the input: the last has three characters, those between two, and the first one or two. */
  lemma GroupsShape(s: string)
    ensures var groups := Groups(s); var n := |groups|;
      && Concat(groups) == s
      && (|s| <= 3 ==> groups == [s])
      && (|s| > 3 ==> n == 1 + (|s| - 2) / 2 && |groups[n - 1]| == 3 && 1 <= |groups[0]| <= 2
                      && forall k :: 0 < k < n - 1 ==> |groups[k]| == 2)
  {
    var groups := Groups(s);
    if |s| > 3 {
      var lead, last := s[..|s| - 3], s[|s| - 3..];
      PairsShape(lead);
      assert groups[..|groups| - 1] == Pairs(lead);
      assert lead + last == s;
    } else {
      assert groups[..0] == [];
    }
  }

  // ---- Commas ----

  function Without(s: string, c: char): (r: string)
    ensures c !in r
  {
    if s == "" then "" else (if s[0] == c then "" else [s[0]]) + Without(s[1..], c)
  }

  function Count(s: string, c: char): nat {
    if s == "" then 0 else (if s[0] == c then 1 else 0) + Count(s[1..], c)
  }

  lemma {:induction false} WithoutConcat(a: string, b: string, c: char)
    ensures Without(a + b, c) == Without(a, c) + Without(b, c)
  {
    if a == "" {
      assert a + b == b;
    } else {
      assert (a + b)[0] == a[0] && (a + b)[1..] == a[1..] + b;
      WithoutConcat(a[1..], b, c);
    }
  }

  lemma {:induction false} CountConcat(a: string, b: string, c: char)
    ensures Count(a + b, c) == Count(a, c) + Count(b, c)
  {
    if a == "" {
      assert a + b == b;
    } else {
      assert (a + b)[0] == a[0] && (a + b)[1..] == a[1..] + b;
      CountConcat(a[1..], b, c);
    }
  }

  lemma {:induction false} WithoutNothing(s: string, c: char)
    requires c !in s
    ensures Without(s, c) == s && Count(s, c) == 0
  {
    if s != "" {
      WithoutNothing(s[1..], c);
    }
  }

  lemma {:induction false} ConcatFront(group: string, groups: seq<string>)
    ensures Concat([group] + groups) == group + Concat(groups)
  {
    var all, n := [group] + groups, |groups|;
    if groups == [] {
      assert all[..0] == [] && Concat(all) == "" + group;
    } else {
      ConcatFront(group, groups[..n - 1]);
      assert all[..n] == [group] + groups[..n - 1];
    }
  }

  lemma CommaAlone()
    ensures Without(",", ',') == "" && Count(",", ',') == 1
  {
    assert ","[1..] == "";
  }

  lemma HeadWithout(first: string, comma: string)
    requires ',' !in first && Without(comma, ',') == "" && Count(comma, ',') == 1
    ensures Without(first + comma, ',') == first && Count(first + comma, ',') == 1
  {
    hide Without, Count;
    WithoutNothing(first, ',');
    WithoutConcat(first, comma, ',');
    CountConcat(first, comma, ',');
    assert first + "" == first;
  }

  lemma FrontWithout(first: string, tail: string)
    requires ',' !in first
    ensures Without(first + "," + tail, ',') == first + Without(tail, ',')
    ensures Count(first + "," + tail, ',') == 1 + Count(tail, ',')
  {
    hide Without, Count;
    CommaAlone();
    HeadWithout(first, ",");
    WithoutConcat(first + ",", tail, ',');
    CountConcat(first + ",", tail, ',');
  }

  lemma {:induction false} JoinedWithout(groups: seq<string>)
    requires groups != [] && forall g :: g in groups ==> ',' !in g
    ensures Without(Join(groups, ","), ',') == Concat(groups) && Count(Join(groups, ","), ',') == |groups| - 1
    decreases |groups|
  {
    hide Without, Count;
    var first, rest := groups[0], groups[1..];
    WithoutNothing(first, ',');
    assert groups == [first] + rest;
    ConcatFront(first, rest);
    if rest == [] {
      assert Join(groups, ",") == first && Concat(rest) == "";
    } else {
      JoinedWithout(rest);
      assert Join(groups, ",") == first + "," + Join(rest, ",");
      FrontWithout(first, Join(rest, ","));
    }
  }

  lemma {:induction false} GroupsOfComma(groups: seq<string>)
    requires ',' !in Concat(groups)
    ensures forall g :: g in groups ==> ',' !in g
  {
    if groups != [] {
      var n := |groups| - 1;
      forall c | c in groups[n] || c in Concat(groups[..n])
        ensures c in Concat(groups)
      {
      }
      GroupsOfComma(groups[..n]);
      assert groups == groups[..n] + [groups[n]];
    }
  }

  /** Deleting the commas gives the input back, and there are ceil((n - 3) / 2) of them. */
  lemma GroupingOnlyAddsCommas(s: string)
    requires ',' !in s
    ensures var grouped := Join(Groups(s), ",");
      Without(grouped, ',') == s && Count(grouped, ',') == if |s| <= 3 then 0 else (|s| - 2) / 2
  {
    GroupsShape(s);
    GroupsOfComma(Groups(s));
    JoinedWithout(Groups(s));
  }

  // ---- FormatINR ----

  const RUPEE: char := '\U{20B9}'

  /** To the nearest whole number, halves to the even one, as fmt.Sprintf("%.2f") does with hundredths. */
  function RoundHalfEven(x: real): nat
    requires x >= 0.0
  {
    var whole := x.Floor;
    var over := x - whole as real;
    if over < 0.5 || (over == 0.5 && whole % 2 == 0) then whole else whole + 1
  }

  /** The printed paise of an amount. */
  function Paise(amount: real): nat {
    RoundHalfEven(100.0 * if amount < 0.0 then -amount else amount)
  }

  /** FormatINR: the sign is that of the amount before rounding. */
  method FormatINR(amount: real) returns (text: string)
    ensures text == Formatted(amount < 0.0, Paise(amount))
  {
    var negative := false;
    var rest := amount;
    if amount < 0.0 {
      negative, rest := true, -amount;
    }
    var paise := RoundHalfEven(100.0 * rest);
    var grouped := ApplyIndianGrouping(Decimal(paise / 100));
    text := [RUPEE] + grouped + "." + TwoDigits(paise % 100);
    if negative {
      text := "-" + text;
    }
  }

  function Formatted(negative: bool, paise: nat): string {
    (if negative then "-" else "")
    + ([RUPEE] + Join(Groups(Decimal(paise / 100)), ",") + "." + TwoDigits(paise % 100))
  }

  /** Reads a formatted amount: the sign, then the digits without the commas and the point. */
  function ReadINR(text: string): int {
    var negative := text != "" && text[0] == '-';
    var digits := Without(Without(Drop(text, if negative then 2 else 1), ','), '.');
    if exists c :: c in digits && !IsDigit(c) then 0 else
      var paise: int := Value(digits);
      if negative then -paise else paise
  }

  lemma ValueOfPair(s: string, n: nat)
    requires n < 100 && forall c :: c in s ==> IsDigit(c)
    ensures Value(s + TwoDigits(n)) == 100 * Value(s) + n
  {
    var t := s + [DigitChar(n / 10)];
    assert s + TwoDigits(n) == t + [DigitChar(n % 10)];
    assert (t + [DigitChar(n % 10)])[..|t|] == t && t[..|s|] == s;
  }

  lemma DigitsOnly(s: string)
    requires forall c :: c in s ==> IsDigit(c)
    ensures Without(s, '.') == s && Without(s, ',') == s
  {
    assert '.' !in s && ',' !in s;
    WithoutNothing(s, '.');
    WithoutNothing(s, ',');
  }

  lemma PointAlone(c: char)
    ensures Without(".", c) == if c == '.' then "" else "."
  {
    assert "."[1..] == "";
  }

  lemma WithoutBoth(grouped: string, whole: string, point: string, cents: string, comma: char, dot: char)
    requires Without(grouped, comma) == whole && Without(whole, dot) == whole
    requires Without(point, comma) == point && Without(point, dot) == ""
    requires Without(cents, comma) == cents && Without(cents, dot) == cents
    ensures Without(Without(grouped + (point + cents), comma), dot) == whole + cents
  {
    WithoutConcat(grouped, point + cents, comma);
    WithoutConcat(point, cents, comma);
    WithoutConcat(whole, point + cents, dot);
    WithoutConcat(point, cents, dot);
    assert "" + cents == cents;
  }

  lemma DigitsAlone(whole: string, grouped: string, cents: string)
    requires (forall c :: c in whole ==> IsDigit(c)) && (forall c :: c in cents ==> IsDigit(c))
    requires Without(grouped, ',') == whole
    ensures Without(Without(grouped + ("." + cents), ','), '.') == whole + cents
  {
    DigitsOnly(whole);
    DigitsOnly(cents);
    PointAlone(',');
    PointAlone('.');
    WithoutBoth(grouped, whole, ".", cents, ',', '.');
  }

  /** Formatted is a sign and the rupee sign before a body of digits, commas and a point. */
  lemma Body(negative: bool, paise: nat, grouped: string, cents: string)
    requires grouped == Join(Groups(Decimal(paise / 100)), ",") && cents == TwoDigits(paise % 100)
    ensures var text := Formatted(negative, paise);
      text != "" && (text[0] == '-' <==> negative) && Drop(text, if negative then 2 else 1) == grouped + ("." + cents)
  {
    var body := grouped + ("." + cents);
    assert [RUPEE] + grouped + "." + cents == [RUPEE] + body;
    if negative {
      assert Formatted(negative, paise) == ['-', RUPEE] + body;
    } else {
      assert Formatted(negative, paise) == [RUPEE] + body;
    }
  }

  /** Sign and paise can be read back. */
  lemma FormattedReadsBack(negative: bool, paise: nat)
    ensures ReadINR(Formatted(negative, paise)) == if negative then 0 - paise else paise as int
  {
    var whole, cents := Decimal(paise / 100), TwoDigits(paise % 100);
    var grouped := Join(Groups(whole), ",");
    GroupingOnlyAddsCommas(whole);
    DigitsAlone(whole, grouped, cents);
    ValueOfDecimal(paise / 100);
    ValueOfPair(whole, paise % 100);
    Body(negative, paise, grouped, cents);
  }

  /** A formatted amount reads back as the nearest number of paise, and exactly when it is whole paise. */
  lemma FormatReadsNearest(amount: real)
    ensures var read := ReadINR(Formatted(amount < 0.0, Paise(amount))) as real;
      && -0.5 <= read - 100.0 * amount <= 0.5
      && ((100.0 * amount).Floor as real == 100.0 * amount ==> read == 100.0 * amount)
  {
    hide ReadINR, Formatted;
    FormattedReadsBack(amount < 0.0, Paise(amount));
    NearestPaise(amount);
  }

  lemma NearestPaise(amount: real)
    ensures var paise := if amount < 0.0 then -(Paise(amount) as real) else Paise(amount) as real;
      && -0.5 <= paise - 100.0 * amount <= 0.5
      && ((100.0 * amount).Floor as real == 100.0 * amount ==> paise == 100.0 * amount)
  {
    var x := 100.0 * if amount < 0.0 then -amount else amount;
    assert x == if amount < 0.0 then -(100.0 * amount) else 100.0 * amount;
    if (100.0 * amount).Floor as real == 100.0 * amount {
      var n := (100.0 * amount).Floor;
      assert x == (if amount < 0.0 then -n else n) as real;
    }
  }

  /** The nearest whole number; where two are equally near, the even one. */
  lemma RoundsHalfEven(x: real)
    requires x >= 0.0
    ensures var off := RoundHalfEven(x) as real - x;
      -0.5 <= off <= 0.5 && (off == 0.5 || off == -0.5 ==> RoundHalfEven(x) % 2 == 0)
  {
  }

  lemma CutLast(s: string, front: string, last: string)
    requires s == front + last && front != ""
    ensures |s| > 3 && |last| == 3 ==> Groups(s) == Pairs(front) + [last]
    ensures |s| > 2 && |last| == 2 ==> Pairs(s) == Pairs(front) + [last]
  {
    assert s[..|front|] == front && s[|front|..] == last;
  }

  lemma GroupExamples()
    ensures Join(Groups("1234567"), ",") == "12,34,567" && Join(Groups("250000"), ",") == "2,50,000" && Join(Groups("0"), ",") == "0"
  {
    CutLast("1234567", "1234", "567");
    CutLast("1234", "12", "34");
    CutLast("250000", "250", "000");
    CutLast("250", "2", "50");
    assert Groups("1234567") == ["12"] + (["34"] + ["567"]) && Groups("250000") == ["2"] + (["50"] + ["000"]);
    JoinFront("34", ["567"]);
    JoinFront("12", ["34"] + ["567"]);
    JoinFront("50", ["000"]);
    JoinFront("2", ["50"] + ["000"]);
  }

  lemma DecimalExamples()
    ensures Decimal(1234567) == "1234567" && Decimal(250000) == "250000" && Decimal(0) == "0"
  {
    assert Decimal(12) == "12" && Decimal(123) == "123" && Decimal(1234) == "1234";
    assert Decimal(12345) == "12345" && Decimal(123456) == "123456";
    assert Decimal(25) == "25" && Decimal(250) == "250" && Decimal(2500) == "2500" && Decimal(25000) == "25000";
  }

  /** Examples of the documentation: thousands apart from pairs, two digits of paise, the sign before the rupee symbol. */
  lemma FormatExamples()
    ensures Formatted(false, Paise(1234567.89)) == [RUPEE] + "12,34,567" + "." + "89"
    ensures Formatted(true, Paise(-250000.5)) == "-" + ([RUPEE] + "2,50,000" + "." + "50")
    ensures Formatted(false, Paise(0.0)) == [RUPEE] + "0" + "." + "00"
  {
    GroupExamples();
    DecimalExamples();
    hide Groups, Join, Decimal;
    assert Paise(1234567.89) == 123456789 && Paise(-250000.5) == 25000050 && Paise(0.0) == 0;
    assert TwoDigits(89) == "89" && TwoDigits(50) == "50" && TwoDigits(0) == "00";
    assert "" + ([RUPEE] + "0" + "." + "00") == [RUPEE] + "0" + "." + "00";
    assert "" + ([RUPEE] + "12,34,567" + "." + "89") == [RUPEE] + "12,34,567" + "." + "89";
  }
}
