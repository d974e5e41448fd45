/** Document numbering: one counter per project, document type and financial year. */
module Numbering {
  import opened Strings

  datatype SeqType = Po | Tdc | Odc | Stdc

  datatype CalendarDate = CalendarDate(year: nat, month: nat)
  type Date = d: CalendarDate | 0 < d.year && 1 <= d.month <= 12 witness CalendarDate(1, 1)

  /** A financial year as four digits. */
  type Year = y: string | |y| == 4 && forall c :: c in y ==> IsDigit(c) witness "0000"

  /** The calendar year a financial year starts in; it starts in April. */
  function StartYear(d: Date): nat {
    if d.month < 4 then d.year - 1 else d.year
  }

  /** The Indian financial year as "YYZZ". */
  function FinancialYear(d: Date): Year {
    TwoDigits(StartYear(d) % 100) + TwoDigits((StartYear(d) + 1) % 100)
  }

  lemma TwoDigitsDiffer(m: nat, n: nat)
    requires m < 100 && n < 100 && TwoDigits(m) == TwoDigits(n)
    ensures m == n
  {
    assert DigitOf(TwoDigits(m)[0]) == m / 10 && DigitOf(TwoDigits(m)[1]) == m % 10;
    assert DigitOf(TwoDigits(n)[0]) == n / 10 && DigitOf(TwoDigits(n)[1]) == n % 10;
  }

  lemma NextRemainder(m: nat)
    ensures (m + 1) % 100 == (m % 100 + 1) % 100
  {
  }

  lemma LabelHalves(m: nat, n: nat, k: nat, l: nat)
    requires m < 100 && n < 100 && k < 100 && l < 100
    ensures TwoDigits(m) + TwoDigits(k) == TwoDigits(n) + TwoDigits(l) ==> m == n
  {
    if TwoDigits(m) + TwoDigits(k) == TwoDigits(n) + TwoDigits(l) {
      assert (TwoDigits(m) + TwoDigits(k))[..2] == TwoDigits(m) && (TwoDigits(n) + TwoDigits(l))[..2] == TwoDigits(n);
      TwoDigitsDiffer(m, n);
    }
  }

  /** The number that two digits stand for. */
  function TwoDigitValue(s: string): nat
    requires |s| == 2 && forall c :: c in s ==> IsDigit(c)
  {
    10 * DigitOf(s[0]) + DigitOf(s[1])
  }

  lemma TwoDigitsValue(n: nat)
    requires n < 100
    ensures TwoDigitValue(TwoDigits(n)) == n
  {
  }

  /** From April on the label starts with this year's last two digits, before April with last year's;
      it ends with the digits of the year after. */
  lemma YearRunsAprilToMarch(d: Date)
    ensures var year: string := FinancialYear(d);
      && (4 <= d.month ==> TwoDigitValue(year[..2]) == d.year % 100)
      && (d.month <= 3 ==> TwoDigitValue(year[..2]) == (d.year - 1) % 100)
      && TwoDigitValue(year[2..]) == (TwoDigitValue(year[..2]) + 1) % 100
  {
    var m, year: string := StartYear(d), FinancialYear(d);
    NextRemainder(m);
    assert year[..2] == TwoDigits(m % 100) && year[2..] == TwoDigits((m + 1) % 100);
    TwoDigitsValue(m % 100);
    TwoDigitsValue((m + 1) % 100);
  }

  /** April 2025 to March 2026 is "2526". */
  lemma YearExamples()
    ensures FinancialYear(CalendarDate(2025, 4)) == FinancialYear(CalendarDate(2025, 12)) == "2526"
    ensures FinancialYear(CalendarDate(2026, 1)) == FinancialYear(CalendarDate(2026, 3)) == "2526"
  {
    assert TwoDigits(25) == "25" && TwoDigits(26) == "26";
  }

  /** Two dates carry the same label exactly when their financial years, which start in April, start a multiple
      of 100 years apart. */
  lemma YearLabels(a: Date, b: Date)
    ensures FinancialYear(a) == FinancialYear(b) <==>
      (if 4 <= a.month then a.year else a.year - 1) % 100 == (if 4 <= b.month then b.year else b.year - 1) % 100
  {
    var m, n := StartYear(a), StartYear(b);
    NextRemainder(m);
    NextRemainder(n);
    LabelHalves(m % 100, n % 100, (m + 1) % 100, (n + 1) % 100);
  }

  datatype SeqKey = SeqKey(project: nat, kind: SeqType, year: Year)
  datatype DocNo = DocNo(key: SeqKey, num: nat)

  type Counters = map<SeqKey, nat>   // last number handed out
  type Starts = map<(nat, SeqType), nat>   // configured first numbers; 0 or absent means unset

  function StartOf(starts: Starts, key: SeqKey): (n: nat)
    ensures n > 0
  {
    var k := (key.project, key.kind);
    if k in starts && starts[k] != 0 then starts[k] else 1
  }

  function NextNumber(counters: Counters, starts: Starts, key: SeqKey): (n: nat)
    ensures n > 0
  {
    if key in counters then counters[key] + 1 else StartOf(starts, key)
  }

  /** The counters after n numbers were drawn under key. */
  function Advance(counters: Counters, starts: Starts, key: SeqKey, n: nat): Counters {
    if n == 0 then counters else counters[key := NextNumber(counters, starts, key) + n - 1]
  }
}
