/** services/po_pricing.go: rupee amounts in Indian English words, and a reader of those words. */
module Words {
  import opened Strings
  import R = Records

  /** The word tables and the other words an amount is written with. */
  datatype Names = Names(ones: seq<string>, tens: seq<string>, crores: string, lakhs: string, thousand: string,
                         hundred: string, joiner: string, rupees: string, only: string, zero: string, negative: string)
  {
    predicate Valid() {
      |ones| == 20 && |tens| == 10
    }
  }

  const ENGLISH := Names(
    ["", "One", "Two", "Three", "Four", "Five", "Six", "Seven", "Eight", "Nine",
     "Ten", "Eleven", "Twelve", "Thirteen", "Fourteen", "Fifteen", "Sixteen", "Seventeen", "Eighteen", "Nineteen"],
    ["", "", "Twenty", "Thirty", "Forty", "Fifty", "Sixty", "Seventy", "Eighty", "Ninety"],
    "Crores", "Lakhs", "Thousand", "Hundred", "and", "Rupees", "Only/-", "Zero", "Negative")

  const LIMIT := 1000000000

  function Under100(v: Names, n: nat): string
    requires v.Valid() && n < 100
  {
    if n < 20 then v.ones[n] else if n % 10 != 0 then v.tens[n / 10] + " " + v.ones[n % 10] else v.tens[n / 10]
  }

  /** The part for a count of some unit; none when the count is 0. */
  function Counted(v: Names, count: nat, unit: string): seq<string>
    requires v.Valid() && count < 100
  {
    if count == 0 then [] else [Under100(v, count) + " " + unit]
  }

  function Rest(v: Names, n: nat, first: bool): seq<string>
    requires v.Valid() && n < 100
  {
    if n == 0 then [] else if first then [Under100(v, n)] else [v.joiner + " " + Under100(v, n)]
  }

  function LeadingParts(v: Names, n: nat): seq<string>
    requires v.Valid() && n < LIMIT
  {
    Counted(v, n / 10000000, v.crores) + Counted(v, n / 100000 % 100, v.lakhs) + Counted(v, n / 1000 % 100, v.thousand)
    + Counted(v, n / 100 % 10, v.hundred)
  }

  function Parts(v: Names, n: nat): seq<string>
    requires v.Valid() && n < LIMIT
  {
    LeadingParts(v, n) + Rest(v, n % 100, LeadingParts(v, n) == [])
  }

  /** No words from LIMIT on: the table of tens ends at ninety. */
  function IndianWords(v: Names, n: nat): R.Option<string>
    requires v.Valid()
  {
    if n < LIMIT then R.Some(Join(Parts(v, n), " ")) else R.None
  }

  // ---- The conversion as the source does it ----

  method ConvertUnder100(v: Names, n: nat) returns (words: R.Option<string>)
    requires v.Valid()
    ensures words == if n < 100 then R.Some(Under100(v, n)) else R.None
  {
    if n < 20 {
      return R.Some(v.ones[n]);
    }
    if n / 10 >= |v.tens| {
      return R.None;
    }
    var result := v.tens[n / 10];
    if n % 10 != 0 {
      result := result + " " + v.ones[n % 10];
    }
    return R.Some(result);
  }

  method AppendCount(v: Names, parts: seq<string>, count: nat, unit: string) returns (r: seq<string>)
    requires v.Valid() && count < 100
    ensures r == parts + Counted(v, count, unit)
  {
    r := parts;
    if count > 0 {
      var words := ConvertUnder100(v, count);
      r := r + [words.value + " " + unit];
    }
  }

  lemma Digits(n: nat)
    ensures n % 10000000 / 100000 == n / 100000 % 100
    ensures n % 100000 / 1000 == n / 1000 % 100
    ensures n % 1000 / 100 == n / 100 % 10
    ensures n % 10000000 % 100000 == n % 100000 && n % 100000 % 1000 == n % 1000 && n % 1000 % 100 == n % 100
  {
    Lakhs(n);
    Thousands(n);
    Hundreds(n);
  }

  lemma Lakhs(n: nat)
    ensures n % 10000000 / 100000 == n / 100000 % 100 && n % 10000000 % 100000 == n % 100000
  {
    var c, r := n / 10000000, n % 10000000;
    var l, s := r / 100000, r % 100000;
    assert n == 100000 * (100 * c + l) + s;
  }

  lemma Thousands(n: nat)
    ensures n % 100000 / 1000 == n / 1000 % 100 && n % 100000 % 1000 == n % 1000
  {
    var c, r := n / 100000, n % 100000;
    var l, s := r / 1000, r % 1000;
    assert n == 1000 * (100 * c + l) + s;
  }

  lemma Hundreds(n: nat)
    ensures n % 1000 / 100 == n / 100 % 10 && n % 1000 % 100 == n % 100
  {
    var c, r := n / 1000, n % 1000;
    var l, s := r / 100, r % 100;
    assert n == 100 * (10 * c + l) + s;
  }

  /** convertToIndianWords: units taken off from the largest down; None stands for the index out of range. */
  method ConvertToIndianWords(v: Names, amount: nat) returns (words: R.Option<string>)
    requires v.Valid()
    ensures words == IndianWords(v, amount)
  {
    var n, parts: seq<string> := amount, [];
    Digits(amount);
    if n >= 10000000 {
      var crores := ConvertUnder100(v, n / 10000000);
      if crores.None? {
        return R.None;
      }
      parts := parts + [crores.value + " " + v.crores];
      n := n % 10000000;
    }
    assert parts == Counted(v, amount / 10000000, v.crores);
    parts := AppendCount(v, parts, n / 100000, v.lakhs);
    n := n % 100000;
    parts := AppendCount(v, parts, n / 1000, v.thousand);
    n := n % 1000;
    parts := AppendCount(v, parts, n / 100, v.hundred);
    n := n % 100;
    ghost var leading, last := parts, n;
    if n > 0 {
      var rest := ConvertUnder100(v, n);
      parts := parts + [if |parts| > 0 then v.joiner + " " + rest.value else rest.value];
    }
    assert parts == leading + Rest(v, last, leading == []);
    return R.Some(Join(parts, " "));
  }

  /** math.Round: to the nearest integer, halves away from zero. */
  function Round(x: real): int {
    if x >= 0.0 then (x + 0.5).Floor else -(-x + 0.5).Floor
  }

  function Ended(v: Names, words: string): string {
    words + " " + (v.rupees + " " + v.only)
  }

  function RupeesInWords(v: Names, amount: real): R.Option<string>
    requires v.Valid() && amount >= 0.0
  {
    var rupees := Round(amount);
    if rupees == 0 then R.Some(Ended(v, v.zero))
    else match IndianWords(v, rupees)
      case None => R.None
      case Some(words) => R.Some(Ended(v, words))
  }

  /** AmountToWords */
  function AmountToWords(v: Names, amount: real): R.Option<string>
    requires v.Valid()
  {
    if amount >= 0.0 then RupeesInWords(v, amount)
    else match RupeesInWords(v, -amount)
      case None => R.None
      case Some(words) => R.Some(v.negative + " " + words)
  }

  // ---- A reader ----

  /** The position of a word in a table, or 0. */
  function IndexOf(table: seq<string>, w: string): (i: nat)
    ensures 0 < i ==> i < |table| && table[i] == w
    ensures i == 0 ==> forall k :: 0 < k < |table| ==> table[k] != w
  {
    if table == [] then 0
    else if table[|table| - 1] == w then |table| - 1
    else IndexOf(table[..|table| - 1], w)
  }

  function Numeral(v: Names, w: string): nat {
    if IndexOf(v.ones, w) > 0 then IndexOf(v.ones, w) else 10 * IndexOf(v.tens, w)
  }

  function Unit(v: Names, w: string): nat {
    if w == v.crores then 10000000 else if w == v.lakhs then 100000 else if w == v.thousand then 1000
    else if w == v.hundred then 100 else 0
  }

  /** What was read so far: finished units, and the count before the next unit. */
  datatype Reading = Reading(total: nat, count: nat)

  /** A unit closes the count before it; any other word adds to the count, which words that are no numerals leave alone. */
  function Next(v: Names, r: Reading, w: string): Reading {
    if Unit(v, w) > 0 then Reading(r.total + r.count * Unit(v, w), 0) else Reading(r.total, r.count + Numeral(v, w))
  }

  function ReadAll(v: Names, r: Reading, words: seq<string>): Reading
    decreases words
  {
    if words == [] then r else ReadAll(v, Next(v, r, words[0]), words[1..])
  }

  function ReadText(v: Names, r: Reading, text: string): Reading {
    ReadAll(v, r, Split(text, ' '))
  }

  /** The rupees a text of words stands for. */
  function ReadAmount(v: Names, text: string): int {
    var r := ReadText(v, Reading(0, 0), text);
    if Split(text, ' ')[0] == v.negative then -(r.total + r.count) else r.total + r.count
  }

  // ---- Splitting and joining ----

  lemma {:induction false} ReadConcat(v: Names, r: Reading, a: seq<string>, b: seq<string>)
    ensures ReadAll(v, r, a + b) == ReadAll(v, ReadAll(v, r, a), b)
    decreases a
  {
    if a == [] {
      assert a + b == b;
    } else {
      assert (a + b)[1..] == a[1..] + b;
      ReadConcat(v, Next(v, r, a[0]), a[1..], b);
    }
  }

  lemma ReadSpaced(v: Names, r: Reading, a: string, b: string)
    ensures ReadText(v, r, a + " " + b) == ReadText(v, ReadText(v, r, a), b)
  {
    SplitConcat(a, b, ' ');
    assert a + " " + b == a + [' '] + b;
    ReadConcat(v, r, Split(a, ' '), Split(b, ' '));
  }

  lemma ReadWord(v: Names, r: Reading, w: string)
    requires ' ' !in w
    ensures ReadText(v, r, w) == Next(v, r, w)
  {
    SplitNone(w, ' ');
    assert ReadAll(v, r, [w]) == ReadAll(v, Next(v, r, w), []);
  }

  function ReadParts(v: Names, r: Reading, parts: seq<string>): Reading
    decreases parts
  {
    if parts == [] then r else ReadParts(v, ReadText(v, r, parts[0]), parts[1..])
  }

  lemma {:induction false} ReadJoined(v: Names, r: Reading, parts: seq<string>)
    requires parts != []
    ensures ReadText(v, r, Join(parts, " ")) == ReadParts(v, r, parts)
    decreases parts
  {
    if |parts| > 1 {
      ReadSpaced(v, r, parts[0], Join(parts[1..], " "));
      ReadJoined(v, ReadText(v, r, parts[0]), parts[1..]);
    } else {
      assert parts[1..] == [];
    }
  }

  lemma {:induction false} ReadPartsConcat(v: Names, r: Reading, a: seq<string>, b: seq<string>)
    ensures ReadParts(v, r, a + b) == ReadParts(v, ReadParts(v, r, a), b)
    decreases a
  {
    if a == [] {
      assert a + b == b;
    } else {
      assert (a + b)[1..] == a[1..] + b;
      ReadPartsConcat(v, ReadText(v, r, a[0]), a[1..], b);
    }
  }

  lemma ReadOnePart(v: Names, r: Reading, part: string)
    ensures ReadParts(v, r, [part]) == ReadText(v, r, part)
  {
    assert [part][1..] == [];
  }

  // ---- Names that can be told apart ----

  /** A word that is no numeral. */
  predicate Apart(v: Names, w: string) {
    ' ' !in w && w !in v.ones && w !in v.tens
  }

  /** No word contains a space, and no two of them are the same. */
  ghost predicate Readable(v: Names) {
    && v.Valid()
    && (forall i :: 1 <= i < 20 ==> ' ' !in v.ones[i])
    && (forall i :: 2 <= i < 10 ==> ' ' !in v.tens[i])
    && (forall i, j :: 1 <= i < 20 && 1 <= j < 20 && v.ones[i] == v.ones[j] ==> i == j)
    && (forall i, j :: 2 <= i < 10 && 2 <= j < 10 && v.tens[i] == v.tens[j] ==> i == j)
    && (forall i, j :: 1 <= i < 20 && 0 <= j < 10 ==> v.ones[i] != v.tens[j])
    && (forall i, j :: 2 <= i < 10 && 0 <= j < 2 ==> v.tens[i] != v.tens[j])
    && v.ones[0] !in v.ones[1..] && v.ones[0] !in v.tens[2..]
    && Unit(v, v.crores) == 10000000 && Unit(v, v.lakhs) == 100000 && Unit(v, v.thousand) == 1000 && Unit(v, v.hundred) == 100
    && Apart(v, v.crores) && Apart(v, v.lakhs) && Apart(v, v.thousand) && Apart(v, v.hundred)
    && Filler(v, v.joiner) && Filler(v, v.rupees) && Filler(v, v.only) && Filler(v, v.zero) && Filler(v, v.negative)
    && v.negative != v.zero
  }

  /** A word that reads as nothing. */
  predicate Filler(v: Names, w: string) {
    Apart(v, w) && Unit(v, w) == 0
  }

  lemma OneReads(v: Names, r: Reading, n: nat)
    requires Readable(v) && 1 <= n < 20
    ensures ReadText(v, r, v.ones[n]) == Reading(r.total, r.count + n)
  {
    ReadWord(v, r, v.ones[n]);
    assert v.ones[n] in v.ones;
    assert IndexOf(v.ones, v.ones[n]) == n;
  }

  lemma TenReads(v: Names, r: Reading, n: nat)
    requires Readable(v) && 2 <= n < 10
    ensures ReadText(v, r, v.tens[n]) == Reading(r.total, r.count + 10 * n)
  {
    ReadWord(v, r, v.tens[n]);
    assert v.tens[n] in v.tens;
    assert IndexOf(v.ones, v.tens[n]) == 0;
    assert IndexOf(v.tens, v.tens[n]) == n;
  }

  lemma FillerReads(v: Names, r: Reading, w: string)
    requires Filler(v, w)
    ensures ReadText(v, r, w) == r
  {
    ReadWord(v, r, w);
  }

  lemma UnitReads(v: Names, r: Reading, w: string)
    requires Apart(v, w) && Unit(v, w) > 0
    ensures ReadText(v, r, w) == Reading(r.total + r.count * Unit(v, w), 0)
  {
    ReadWord(v, r, w);
  }

  // ---- The reader gets the amount back ----

  lemma ReadUnder100(v: Names, total: nat, n: nat)
    requires Readable(v) && 1 <= n < 100
    ensures ReadText(v, Reading(total, 0), Under100(v, n)) == Reading(total, n)
  {
    var r := Reading(total, 0);
    if n < 20 {
      OneReads(v, r, n);
    } else if n % 10 == 0 {
      TenReads(v, r, n / 10);
    } else {
      ReadSpaced(v, r, v.tens[n / 10], v.ones[n % 10]);
      TenReads(v, r, n / 10);
      OneReads(v, Reading(total, n / 10 * 10), n % 10);
    }
  }

  lemma AddUnit(v: Names, parts: seq<string>, total: nat, count: nat, unit: string, value: nat)
    requires Readable(v) && ReadParts(v, Reading(0, 0), parts) == Reading(total, 0)
    requires count < 100 && Apart(v, unit) && Unit(v, unit) == value > 0
    ensures ReadParts(v, Reading(0, 0), parts + Counted(v, count, unit)) == Reading(total + count * value, 0)
  {
    var start := Reading(0, 0);
    if count == 0 {
      assert parts + [] == parts;
    } else {
      var words := Under100(v, count);
      ReadPartsConcat(v, start, parts, [words + " " + unit]);
      ReadOnePart(v, Reading(total, 0), words + " " + unit);
      ReadSpaced(v, Reading(total, 0), words, unit);
      ReadUnder100(v, total, count);
      UnitReads(v, Reading(total, count), unit);
    }
  }

  lemma ReadUnits(v: Names, a: nat, b: nat, c: nat, d: nat)
    requires Readable(v) && a < 100 && b < 100 && c < 100 && d < 100
    ensures ReadParts(v, Reading(0, 0), Counted(v, a, v.crores) + Counted(v, b, v.lakhs) + Counted(v, c, v.thousand) + Counted(v, d, v.hundred))
            == Reading(a * 10000000 + b * 100000 + c * 1000 + d * 100, 0)
  {
    var crores, lakhs, thousands := Counted(v, a, v.crores), Counted(v, b, v.lakhs), Counted(v, c, v.thousand);
    assert [] + crores == crores;
    AddUnit(v, [], 0, a, v.crores, 10000000);
    AddUnit(v, crores, a * 10000000, b, v.lakhs, 100000);
    AddUnit(v, crores + lakhs, a * 10000000 + b * 100000, c, v.thousand, 1000);
    AddUnit(v, crores + lakhs + thousands, a * 10000000 + b * 100000 + c * 1000, d, v.hundred, 100);
  }

  lemma DigitGroups(n: nat)
    ensures n == n / 10000000 * 10000000 + n / 100000 % 100 * 100000 + n / 1000 % 100 * 1000 + n / 100 % 10 * 100 + n % 100
  {
    Digits(n);
  }

  lemma ReadLeading(v: Names, n: nat)
    requires Readable(v) && n < LIMIT
    ensures ReadParts(v, Reading(0, 0), LeadingParts(v, n)) == Reading(n - n % 100, 0)
  {
    ReadUnits(v, n / 10000000, n / 100000 % 100, n / 1000 % 100, n / 100 % 10);
    DigitGroups(n);
  }

  lemma ReadRest(v: Names, total: nat, n: nat, first: bool)
    requires Readable(v) && n < 100
    ensures ReadParts(v, Reading(total, 0), Rest(v, n, first)) == Reading(total, n)
  {
    if n > 0 {
      var r := Reading(total, 0);
      ReadUnder100(v, total, n);
      ReadOnePart(v, r, if first then Under100(v, n) else v.joiner + " " + Under100(v, n));
      ReadSpaced(v, r, v.joiner, Under100(v, n));
      FillerReads(v, r, v.joiner);
    }
  }

  /** Reading the words of a positive amount below LIMIT gives the amount. */
  lemma ReadIndianWords(v: Names, n: nat)
    requires Readable(v) && 0 < n < LIMIT
    ensures var r := ReadText(v, Reading(0, 0), Join(Parts(v, n), " ")); r.total + r.count == n
  {
    var leading := LeadingParts(v, n);
    ReadLeading(v, n);
    ReadRest(v, n - n % 100, n % 100, leading == []);
    ReadPartsConcat(v, Reading(0, 0), leading, Rest(v, n % 100, leading == []));
    assert Parts(v, n) != [];
    ReadJoined(v, Reading(0, 0), Parts(v, n));
  }

  lemma ReadEnding(v: Names, r: Reading, words: string)
    requires Readable(v)
    ensures ReadText(v, r, Ended(v, words)) == ReadText(v, r, words)
  {
    var read := ReadText(v, r, words);
    ReadSpaced(v, r, words, v.rupees + " " + v.only);
    ReadSpaced(v, read, v.rupees, v.only);
    FillerReads(v, read, v.rupees);
    FillerReads(v, read, v.only);
  }

  /** The words of a non-negative amount exist exactly below LIMIT rupees, and read back as the rounded amount. */
  lemma RupeesReadBack(v: Names, amount: real)
    requires Readable(v) && amount >= 0.0
    ensures RupeesInWords(v, amount).Some? <==> Round(amount) < LIMIT
    ensures RupeesInWords(v, amount).Some? ==>
      var r := ReadText(v, Reading(0, 0), RupeesInWords(v, amount).value); r.total + r.count == Round(amount)
  {
    var rupees := Round(amount);
    if rupees == 0 {
      ReadEnding(v, Reading(0, 0), v.zero);
      FillerReads(v, Reading(0, 0), v.zero);
    } else if rupees < LIMIT {
      ReadIndianWords(v, rupees);
      ReadEnding(v, Reading(0, 0), Join(Parts(v, rupees), " "));
    }
  }

  // ---- The sign ----

  function FirstWord(text: string): string {
    Split(text, ' ')[0]
  }

  lemma FirstOfSpaced(a: string, b: string)
    ensures FirstWord(a + " " + b) == FirstWord(a)
  {
    SplitConcat(a, b, ' ');
    assert a + " " + b == a + [' '] + b;
  }

  /** Starts with a numeral. */
  ghost predicate StartsPlain(v: Names, text: string) {
    FirstWord(text) in v.ones || FirstWord(text) in v.tens
  }

  lemma Under100StartsPlain(v: Names, n: nat)
    requires Readable(v) && 1 <= n < 100
    ensures StartsPlain(v, Under100(v, n))
  {
    if n < 20 {
      SplitNone(v.ones[n], ' ');
    } else {
      SplitNone(v.tens[n / 10], ' ');
      FirstOfSpaced(v.tens[n / 10], v.ones[n % 10]);
    }
  }

  lemma CountedStartsPlain(v: Names, count: nat, unit: string)
    requires Readable(v) && count < 100
    ensures Counted(v, count, unit) != [] ==> StartsPlain(v, Counted(v, count, unit)[0])
  {
    if count > 0 {
      Under100StartsPlain(v, count);
      FirstOfSpaced(Under100(v, count), unit);
    }
  }

  lemma PartsStartPlain(v: Names, n: nat)
    requires Readable(v) && 0 < n < LIMIT
    ensures Parts(v, n) != [] && StartsPlain(v, Parts(v, n)[0])
  {
    ReadIndianWordsParts(v, n);
    CountedStartsPlain(v, n / 10000000, v.crores);
    CountedStartsPlain(v, n / 100000 % 100, v.lakhs);
    CountedStartsPlain(v, n / 1000 % 100, v.thousand);
    CountedStartsPlain(v, n / 100 % 10, v.hundred);
    if n % 100 > 0 {
      Under100StartsPlain(v, n % 100);
    }
  }

  lemma ReadIndianWordsParts(v: Names, n: nat)
    requires Readable(v) && 0 < n < LIMIT
    ensures Parts(v, n) != []
  {
    DigitGroups(n);
  }

  lemma FirstOfJoined(parts: seq<string>)
    requires parts != []
    ensures FirstWord(Join(parts, " ")) == FirstWord(parts[0])
  {
    if |parts| > 1 {
      FirstOfSpaced(parts[0], Join(parts[1..], " "));
    }
  }

  lemma RupeesDoNotStartNegative(v: Names, amount: real)
    requires Readable(v) && amount >= 0.0 && RupeesInWords(v, amount).Some?
    ensures FirstWord(RupeesInWords(v, amount).value) != v.negative
  {
    var rupees := Round(amount);
    if rupees == 0 {
      FirstOfSpaced(v.zero, v.rupees + " " + v.only);
      SplitNone(v.zero, ' ');
    } else {
      PartsStartPlain(v, rupees);
      FirstOfJoined(Parts(v, rupees));
      FirstOfSpaced(Join(Parts(v, rupees), " "), v.rupees + " " + v.only);
    }
  }

  lemma PositiveReadsBack(v: Names, amount: real)
    requires Readable(v) && amount >= 0.0 && RupeesInWords(v, amount).Some?
    ensures ReadAmount(v, RupeesInWords(v, amount).value) == Round(amount)
  {
    RupeesReadBack(v, amount);
    RupeesDoNotStartNegative(v, amount);
  }

  lemma NegativeReadsBack(v: Names, amount: real, words: string)
    requires Readable(v) && amount >= 0.0 && RupeesInWords(v, amount) == R.Some(words)
    ensures ReadAmount(v, v.negative + " " + words) == -Round(amount)
  {
    RupeesReadBack(v, amount);
    ReadSpaced(v, Reading(0, 0), v.negative, words);
    FillerReads(v, Reading(0, 0), v.negative);
    FirstOfSpaced(v.negative, words);
    SplitNone(v.negative, ' ');
  }

  lemma WordsExist(v: Names, amount: real)
    requires v.Valid() && amount >= 0.0
    ensures RupeesInWords(v, amount).Some? <==> Round(amount) < LIMIT
  {
  }

  /** For every amount, negative ones included: words exist exactly when its magnitude rounds below LIMIT,
      and they read back as the rounded amount. */
  lemma AmountReadsBack(v: Names, amount: real)
    requires Readable(v)
    ensures AmountToWords(v, amount).Some? <==> -LIMIT < Round(amount) < LIMIT
    ensures AmountToWords(v, amount).Some? ==> ReadAmount(v, AmountToWords(v, amount).value) == Round(amount)
  {
    if amount >= 0.0 {
      WordsExist(v, amount);
      if RupeesInWords(v, amount).Some? {
        PositiveReadsBack(v, amount);
      }
    } else {
      WordsExist(v, -amount);
      if RupeesInWords(v, -amount).Some? {
        NegativeReadsBack(v, -amount, RupeesInWords(v, -amount).value);
      }
    }
  }

  /** Amounts that round differently are written differently. */
  lemma DifferentAmountsPrintDifferently(v: Names, a: real, b: real)
    requires Readable(v) && AmountToWords(v, a).Some? && AmountToWords(v, b).Some? && Round(a) != Round(b)
    ensures AmountToWords(v, a) != AmountToWords(v, b)
  {
    AmountReadsBack(v, a);
    AmountReadsBack(v, b);
  }

  // ---- English can be told apart ----

  /** The words are told apart by their length and three of their letters. */
  function Mark(w: string): (nat, char, char, char)
    requires |w| > 2
  {
    (|w|, w[0], w[2], w[|w| - 1])
  }

  lemma NumeralMarks()
    ensures Mark("One") == (3, 'O', 'e', 'e') && Mark("Two") == (3, 'T', 'o', 'o') && Mark("Three") == (5, 'T', 'r', 'e')
    ensures Mark("Four") == (4, 'F', 'u', 'r') && Mark("Five") == (4, 'F', 'v', 'e') && Mark("Six") == (3, 'S', 'x', 'x')
    ensures Mark("Seven") == (5, 'S', 'v', 'n') && Mark("Eight") == (5, 'E', 'g', 't') && Mark("Nine") == (4, 'N', 'n', 'e')
    ensures Mark("Ten") == (3, 'T', 'n', 'n') && Mark("Eleven") == (6, 'E', 'e', 'n') && Mark("Twelve") == (6, 'T', 'e', 'e')
    ensures Mark("Thirteen") == (8, 'T', 'i', 'n') && Mark("Fourteen") == (8, 'F', 'u', 'n') && Mark("Fifteen") == (7, 'F', 'f', 'n')
    ensures Mark("Sixteen") == (7, 'S', 'x', 'n') && Mark("Seventeen") == (9, 'S', 'v', 'n') && Mark("Eighteen") == (8, 'E', 'g', 'n')
    ensures Mark("Nineteen") == (8, 'N', 'n', 'n')
  {
  }

  lemma OtherMarks()
    ensures Mark("Twenty") == (6, 'T', 'e', 'y') && Mark("Thirty") == (6, 'T', 'i', 'y') && Mark("Forty") == (5, 'F', 'r', 'y')
    ensures Mark("Fifty") == (5, 'F', 'f', 'y') && Mark("Sixty") == (5, 'S', 'x', 'y') && Mark("Seventy") == (7, 'S', 'v', 'y')
    ensures Mark("Eighty") == (6, 'E', 'g', 'y') && Mark("Ninety") == (6, 'N', 'n', 'y')
    ensures Mark("Crores") == (6, 'C', 'o', 's') && Mark("Lakhs") == (5, 'L', 'k', 's') && Mark("Thousand") == (8, 'T', 'o', 'd')
    ensures Mark("Hundred") == (7, 'H', 'n', 'd') && Mark("and") == (3, 'a', 'd', 'd') && Mark("Zero") == (4, 'Z', 'r', 'o')
    ensures Mark("Rupees") == (6, 'R', 'p', 's') && Mark("Only/-") == (6, 'O', 'l', '-') && Mark("Negative") == (8, 'N', 'g', 'e')
  {
  }

  /** What a word names: its number, or a label from 100 on. */
  function Meaning(w: string): nat {
    if w == "One" then 1 else if w == "Two" then 2 else if w == "Three" then 3 else if w == "Four" then 4
    else if w == "Five" then 5 else if w == "Six" then 6 else if w == "Seven" then 7 else if w == "Eight" then 8
    else if w == "Nine" then 9 else if w == "Ten" then 10 else if w == "Eleven" then 11 else if w == "Twelve" then 12
    else if w == "Thirteen" then 13 else if w == "Fourteen" then 14 else if w == "Fifteen" then 15
    else if w == "Sixteen" then 16 else if w == "Seventeen" then 17 else if w == "Eighteen" then 18
    else if w == "Nineteen" then 19 else if w == "Twenty" then 20 else if w == "Thirty" then 30
    else if w == "Forty" then 40 else if w == "Fifty" then 50 else if w == "Sixty" then 60
    else if w == "Seventy" then 70 else if w == "Eighty" then 80 else if w == "Ninety" then 90
    else if w == "Crores" then 100 else if w == "Lakhs" then 101 else if w == "Thousand" then 102
    else if w == "Hundred" then 103 else if w == "and" then 104 else if w == "Rupees" then 105
    else if w == "Only/-" then 106 else if w == "Zero" then 107 else if w == "Negative" then 108
    else 0
  }

  lemma OneMeaning(n: nat)
    requires n < 20
    ensures Meaning(ENGLISH.ones[n]) == n
  {
    NumeralMarks();
    OtherMarks();
  }

  lemma TenMeaning(n: nat)
    requires n < 10
    ensures Meaning(ENGLISH.tens[n]) == if n < 2 then 0 else 10 * n
  {
    NumeralMarks();
    OtherMarks();
  }

  lemma UnitMeanings()
    ensures Meaning(ENGLISH.crores) == 100 && Meaning(ENGLISH.lakhs) == 101
    ensures Meaning(ENGLISH.thousand) == 102 && Meaning(ENGLISH.hundred) == 103
  {
    NumeralMarks();
    OtherMarks();
  }

  lemma FillerMeanings()
    ensures Meaning(ENGLISH.joiner) == 104 && Meaning(ENGLISH.rupees) == 105 && Meaning(ENGLISH.only) == 106
    ensures Meaning(ENGLISH.zero) == 107 && Meaning(ENGLISH.negative) == 108
  {
    NumeralMarks();
    OtherMarks();
  }

  ghost predicate Spaceless(v: Names) {
    && v.Valid() && (forall i :: 0 <= i < 20 ==> ' ' !in v.ones[i]) && (forall i :: 0 <= i < 10 ==> ' ' !in v.tens[i])
    && ' ' !in v.crores && ' ' !in v.lakhs && ' ' !in v.thousand && ' ' !in v.hundred && ' ' !in v.joiner
    && ' ' !in v.rupees && ' ' !in v.only && ' ' !in v.zero && ' ' !in v.negative
  }

  lemma OneIsSpaceless(n: nat)
    requires n < 20
    ensures ' ' !in ENGLISH.ones[n]
  {
  }

  lemma TenIsSpaceless(n: nat)
    requires n < 10
    ensures ' ' !in ENGLISH.tens[n]
  {
  }

  lemma UnitsAreSpaceless()
    ensures ' ' !in ENGLISH.crores && ' ' !in ENGLISH.lakhs && ' ' !in ENGLISH.thousand && ' ' !in ENGLISH.hundred
  {
  }

  lemma FillersAreSpaceless()
    ensures ' ' !in ENGLISH.joiner && ' ' !in ENGLISH.rupees && ' ' !in ENGLISH.only && ' ' !in ENGLISH.zero
    ensures ' ' !in ENGLISH.negative
  {
  }

  lemma EnglishIsSpaceless()
    ensures Spaceless(ENGLISH)
  {
    forall i | 0 <= i < 20
      ensures ' ' !in ENGLISH.ones[i]
    {
      OneIsSpaceless(i);
    }
    forall i | 0 <= i < 10
      ensures ' ' !in ENGLISH.tens[i]
    {
      TenIsSpaceless(i);
    }
    UnitsAreSpaceless();
    FillersAreSpaceless();
  }

  /** Words with different meanings are different words. */
  lemma ReadableByMeaning(v: Names, meaning: string -> nat)
    requires Spaceless(v)
    requires forall i :: 0 <= i < 20 ==> meaning(v.ones[i]) == i
    requires forall i :: 0 <= i < 10 ==> meaning(v.tens[i]) == if i < 2 then 0 else 10 * i
    requires meaning(v.crores) == 100 && meaning(v.lakhs) == 101 && meaning(v.thousand) == 102 && meaning(v.hundred) == 103
    requires meaning(v.joiner) == 104 && meaning(v.rupees) == 105 && meaning(v.only) == 106
    requires meaning(v.zero) == 107 && meaning(v.negative) == 108
    ensures Readable(v)
  {
    forall w | meaning(w) >= 100 && ' ' !in w
      ensures Apart(v, w)
    {
    }
  }

  /** The English names can be read, so everything above holds of them. */
  lemma EnglishIsReadable()
    ensures Readable(ENGLISH)
  {
    EnglishIsSpaceless();
    forall i | 0 <= i < 20
      ensures Meaning(ENGLISH.ones[i]) == i
    {
      OneMeaning(i);
    }
    forall i | 0 <= i < 10
      ensures Meaning(ENGLISH.tens[i]) == if i < 2 then 0 else 10 * i
    {
      TenMeaning(i);
    }
    UnitMeanings();
    FillerMeanings();
    ReadableByMeaning(ENGLISH, Meaning);
  }

  /** AmountToWords with the English names. */
  lemma EnglishAmountsReadBack(amount: real)
    ensures AmountToWords(ENGLISH, amount).Some? <==> -LIMIT < Round(amount) < LIMIT
    ensures AmountToWords(ENGLISH, amount).Some? ==> ReadAmount(ENGLISH, AmountToWords(ENGLISH, amount).value) == Round(amount)
  {
    hide *;
    EnglishIsReadable();
    AmountReadsBack(ENGLISH, amount);
  }
}
