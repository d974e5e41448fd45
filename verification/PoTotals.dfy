/** services/po_pricing.go: purchase-order line amounts, totals and round-off. */
module PoTotals {
  import W = Words

  datatype LineCalc = LineCalc(rate: real, quantity: real, gstPercent: real, beforeGst: real, gstAmount: real, total: real)

  datatype Totals = Totals(beforeTax: real, igstPercent: real, igstAmount: real, roundOff: real, grandTotal: real)

  /** Before tax rate times quantity, the tax its percentage of that, and the total both together. */
  predicate Calculated(l: LineCalc) {
    && l.beforeGst == l.rate * l.quantity && 100.0 * l.gstAmount == l.beforeGst * l.gstPercent
    && l.total == l.beforeGst + l.gstAmount
  }

  /** CalcPOLineItem */
  function CalcLine(rate: real, quantity: real, gstPercent: real): (l: LineCalc)
    ensures Calculated(l) && l.rate == rate && l.quantity == quantity && l.gstPercent == gstPercent
  {
    var before := rate * quantity;
    var gst := before * gstPercent / 100.0;
    LineCalc(rate, quantity, gstPercent, before, gst, before + gst)
  }

  function RoundOff(amount: real): real {
    W.Round(amount) as real - amount
  }

  function Before(items: seq<LineCalc>, n: nat): real
    requires n <= |items|
  {
    if n == 0 then 0.0 else Before(items, n - 1) + items[n - 1].beforeGst
  }

  function Gst(items: seq<LineCalc>, n: nat): real
    requires n <= |items|
  {
    if n == 0 then 0.0 else Gst(items, n - 1) + items[n - 1].gstAmount
  }

  function LineTotals(items: seq<LineCalc>, n: nat): real
    requires n <= |items|
  {
    if n == 0 then 0.0 else LineTotals(items, n - 1) + items[n - 1].total
  }

  lemma {:induction false} TotalsAddUp(items: seq<LineCalc>, n: nat)
    requires n <= |items| && forall l :: l in items ==> Calculated(l)
    ensures LineTotals(items, n) == Before(items, n) + Gst(items, n)
  {
    if n > 0 {
      TotalsAddUp(items, n - 1);
      assert Calculated(items[n - 1]);
    }
  }

  /** A line whose percentage lies between lo and hi pays a share between those of lo and hi. */
  lemma ShareBetween(l: LineCalc, lo: real, hi: real)
    requires Calculated(l) && l.beforeGst >= 0.0 && lo <= l.gstPercent <= hi
    ensures lo * l.beforeGst <= 100.0 * l.gstAmount <= hi * l.beforeGst
  {
    var b := l.beforeGst;
    assert 100.0 * l.gstAmount == b * l.gstPercent;
    assert b * (l.gstPercent - lo) >= 0.0 && b * (hi - l.gstPercent) >= 0.0;
  }

  lemma Distribute(c: real, a: real, b: real)
    ensures c * (a + b) == c * a + c * b
  {
  }

  lemma {:induction false} SharesBetween(items: seq<LineCalc>, n: nat, lo: real, hi: real)
    requires n <= |items|
    requires NonNegative(items) && AllBetween(items, lo, hi)
    ensures lo * Before(items, n) <= 100.0 * Gst(items, n) <= hi * Before(items, n)
  {
    if n > 0 {
      var l := items[n - 1];
      SharesBetween(items, n - 1, lo, hi);
      ShareBetween(l, lo, hi);
      Distribute(lo, Before(items, n - 1), l.beforeGst);
      Distribute(hi, Before(items, n - 1), l.beforeGst);
    }
  }

  lemma Divide(a: real, b: real, c: real)
    requires b > 0.0
    ensures a * b <= c ==> a <= c / b
    ensures c <= a * b ==> c / b <= a
  {
    assert a * b / b == a;
    assert a * b <= c ==> a * b / b <= c / b;
    assert c <= a * b ==> c / b <= a * b / b;
  }

  lemma PercentBetween(before: real, gst: real, lo: real, hi: real)
    requires before > 0.0 && lo * before <= 100.0 * gst <= hi * before
    ensures lo <= gst / before * 100.0 <= hi
  {
    assert gst / before * 100.0 == 100.0 * gst / before;
    Divide(lo, before, 100.0 * gst);
    Divide(hi, before, 100.0 * gst);
  }

  /** Rounding moves an amount by at most a half, to an integer; halves move away from zero. */
  lemma RoundOffBounds(amount: real)
    ensures -0.5 <= RoundOff(amount) <= 0.5
    ensures amount >= 0.0 ==> -0.5 < RoundOff(amount)
    ensures amount + RoundOff(amount) == W.Round(amount) as real
  {
  }

  /** The part of an amount above the next whole number below it. */
  function Fraction(amount: real): real {
    amount - amount.Floor as real
  }

  /** "Below one half down, from one half on up" describes the round-off of every amount
      but the negative ones that end in exactly one half, which go down. */
  lemma RoundsHalvesUpExactly(amount: real)
    ensures var f := Fraction(amount);
      RoundOff(amount) == (if f < 0.5 then -f else 1.0 - f) <==> !(amount < 0.0 && f == 0.5)
    ensures RoundOff(-0.5) == -0.5
  {
    var whole := amount.Floor;
    assert whole as real <= amount < whole as real + 1.0;
    assert (-amount + 0.5).Floor == -whole - (if Fraction(amount) > 0.5 then 1 else 0);
    assert (0.5 + 0.5).Floor == 1;
  }

  predicate AllBetween(items: seq<LineCalc>, lo: real, hi: real) {
    forall l :: l in items ==> lo <= l.gstPercent <= hi
  }

  /** No smaller than the smallest and no larger than the largest line percentage. */
  ghost predicate PercentWithin(items: seq<LineCalc>, percent: real) {
    forall lo: real, hi: real :: AllBetween(items, lo, hi) ==> lo <= percent <= hi
  }

  predicate NonNegative(items: seq<LineCalc>) {
    forall l :: l in items ==> Calculated(l) && l.beforeGst >= 0.0
  }

  /** CalcPOTotals: the grand total is a whole number of rupees, off the sum of the line totals by at most a half;
      the effective percentage lies between the smallest and the largest line percentage. */
  method CalcPOTotals(items: seq<LineCalc>) returns (t: Totals)
    ensures t.beforeTax == Before(items, |items|) && t.igstAmount == Gst(items, |items|)
    ensures -0.5 <= t.roundOff <= 0.5 && t.grandTotal == W.Round(t.beforeTax + t.igstAmount) as real
    ensures (forall l :: l in items ==> Calculated(l)) ==> t.grandTotal == LineTotals(items, |items|) + t.roundOff
    ensures if t.beforeTax > 0.0 then t.igstPercent * t.beforeTax == 100.0 * t.igstAmount else t.igstPercent == 0.0
    ensures t.beforeTax > 0.0 && NonNegative(items) ==> PercentWithin(items, t.igstPercent)
  {
    var before, gst := 0.0, 0.0;
    for i := 0 to |items|
      invariant before == Before(items, i) && gst == Gst(items, i)
    {
      before := before + items[i].beforeGst;
      gst := gst + items[i].gstAmount;
    }
    var percent := 0.0;
    if before > 0.0 {
      percent := gst / before * 100.0;
      PercentOf(before, gst);
      PercentsWithin(items, before, gst);
    }
    var subtotal := before + gst;
    var roundOff := RoundOff(subtotal);
    RoundOffBounds(subtotal);
    if forall l :: l in items ==> Calculated(l) {
      TotalsAddUp(items, |items|);
    }
    t := Totals(before, percent, gst, roundOff, subtotal + roundOff);
  }

  lemma PercentOf(before: real, gst: real)
    requires before > 0.0
    ensures gst / before * 100.0 * before == 100.0 * gst
  {
    assert gst / before * before == gst;
  }

  lemma PercentsWithin(items: seq<LineCalc>, before: real, gst: real)
    requires before == Before(items, |items|) > 0.0 && gst == Gst(items, |items|)
    ensures NonNegative(items) ==> PercentWithin(items, gst / before * 100.0)
  {
    if NonNegative(items) {
      forall lo: real, hi: real | AllBetween(items, lo, hi)
        ensures lo <= gst / before * 100.0 <= hi
      {
        SharesBetween(items, |items|, lo, hi);
        PercentBetween(before, gst, lo, hi);
      }
    }
  }

  /** The amount in words of a grand total reads back as exactly that total. */
  lemma GrandTotalReadsBack(subtotal: real)
    requires -W.LIMIT < W.Round(subtotal) < W.LIMIT
    ensures var grand := subtotal + RoundOff(subtotal);
      && W.AmountToWords(W.ENGLISH, grand).Some?
      && W.ReadAmount(W.ENGLISH, W.AmountToWords(W.ENGLISH, grand).value) as real == grand
  {
    hide *;
    W.EnglishIsReadable();
    RoundedReadsBack(W.ENGLISH, subtotal);
  }

  lemma RoundedReadsBack(v: W.Names, subtotal: real)
    requires W.Readable(v) && -W.LIMIT < W.Round(subtotal) < W.LIMIT
    ensures var grand := subtotal + RoundOff(subtotal);
      && W.AmountToWords(v, grand).Some?
      && W.ReadAmount(v, W.AmountToWords(v, grand).value) as real == grand
  {
    hide *;
    RoundOffBounds(subtotal);
    WholeRounds(W.Round(subtotal));
    W.AmountReadsBack(v, subtotal + RoundOff(subtotal));
  }

  lemma WholeRounds(n: int)
    ensures W.Round(n as real) == n
  {
  }
}
