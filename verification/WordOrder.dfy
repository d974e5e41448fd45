/** Where the words of an amount stand: the sign first, "and" before the last two digits, the currency at the end. */
module WordOrder {
  import opened Strings
  import opened Words

  lemma {:induction false} JoinMore(parts: seq<string>, last: string)
    requires parts != []
    ensures Join(parts + [last], " ") == Join(parts, " ") + " " + last
    decreases parts
  {
    if |parts| == 1 {
      assert parts + [last] == [parts[0], last];
      assert [parts[0], last][1..] == [last];
    } else {
      assert (parts + [last])[1..] == parts[1..] + [last];
      JoinMore(parts[1..], last);
    }
  }

  lemma SpacedWords(a: string, b: string)
    ensures Split(a + " " + b, ' ') == Split(a, ' ') + Split(b, ' ')
  {
    SplitConcat(a, b, ' ');
    assert a + " " + b == a + [' '] + b;
  }

  // ---- Words of a number ----

  /** Only numerals and units, so no "and". */
  ghost predicate Plain(v: Names, text: string) {
    forall w :: w in Split(text, ' ') ==> w in v.ones || w in v.tens || Unit(v, w) > 0
  }

  lemma PlainSpaced(v: Names, a: string, b: string)
    requires Plain(v, a) && Plain(v, b)
    ensures Plain(v, a + " " + b)
  {
    SpacedWords(a, b);
  }

  lemma Under100Plain(v: Names, n: nat)
    requires Readable(v) && 1 <= n < 100
    ensures Plain(v, Under100(v, n))
  {
    if n < 20 {
      SplitNone(v.ones[n], ' ');
    } else {
      SplitNone(v.tens[n / 10], ' ');
      if n % 10 != 0 {
        SplitNone(v.ones[n % 10], ' ');
        PlainSpaced(v, v.tens[n / 10], v.ones[n % 10]);
      }
    }
  }

  lemma CountedPlain(v: Names, count: nat, unit: string)
    requires Readable(v) && count < 100 && Apart(v, unit) && Unit(v, unit) > 0
    ensures forall part :: part in Counted(v, count, unit) ==> Plain(v, part)
  {
    if count > 0 {
      Under100Plain(v, count);
      SplitNone(unit, ' ');
      PlainSpaced(v, Under100(v, count), unit);
    }
  }

  lemma LeadingPlain(v: Names, n: nat)
    requires Readable(v) && n < LIMIT
    ensures forall part :: part in LeadingParts(v, n) ==> Plain(v, part)
  {
    hide Plain, Counted;
    CountedPlain(v, n / 10000000, v.crores);
    CountedPlain(v, n / 100000 % 100, v.lakhs);
    CountedPlain(v, n / 1000 % 100, v.thousand);
    CountedPlain(v, n / 100 % 10, v.hundred);
  }

  lemma {:induction false} JoinedPlain(v: Names, parts: seq<string>)
    requires parts != [] && forall part :: part in parts ==> Plain(v, part)
    ensures Plain(v, Join(parts, " "))
    decreases parts
  {
    hide Plain;
    if |parts| > 1 {
      JoinedPlain(v, parts[1..]);
      PlainSpaced(v, parts[0], Join(parts[1..], " "));
    }
  }

  lemma NoJoiner(v: Names, text: string)
    requires Readable(v) && Plain(v, text)
    ensures v.joiner !in Split(text, ' ')
  {
  }

  lemma JoinerBetween(v: Names, n: nat)
    requires Readable(v) && 100 <= n < LIMIT && n % 100 != 0
    ensures Split(IndianWords(v, n).value, ' ')
      == Split(Join(LeadingParts(v, n), " "), ' ') + [v.joiner] + Split(Under100(v, n % 100), ' ')
  {
    hide LeadingParts, Unit, Apart, Filler, Join, Split;
    LeadingKept(v, n);
    var leading, words := LeadingParts(v, n), Under100(v, n % 100);
    assert Parts(v, n) == leading + [v.joiner + " " + words];
    JoinMore(leading, v.joiner + " " + words);
    SpacedWords(Join(leading, " "), v.joiner + " " + words);
    SpacedWords(v.joiner, words);
    JoinerAlone(v);
  }

  /** The words in order: the hundreds and above, then "and", then the last two digits. */
  lemma JoinerPlaced(v: Names, n: nat)
    requires Readable(v) && 0 < n < LIMIT
    ensures n < 100 || n % 100 == 0 ==> v.joiner !in Split(IndianWords(v, n).value, ' ')
    ensures n >= 100 && n % 100 != 0 ==>
      Split(IndianWords(v, n).value, ' ')
      == Split(IndianWords(v, n - n % 100).value, ' ') + [v.joiner] + Split(IndianWords(v, n % 100).value, ' ')
  {
    hide Plain, Counted, Unit, Apart, Filler, LeadingParts, Parts, Join, Split, Under100;
    LeadingKept(v, n);
    if n % 100 == 0 {
      HighWords(v, n);
    } else if n < 100 {
      LowWords(v, n);
    } else {
      HighWords(v, n - n % 100);
      LowWords(v, n % 100);
      JoinerBetween(v, n);
    }
  }

  lemma JoinerAlone(v: Names)
    requires Readable(v)
    ensures Split(v.joiner, ' ') == [v.joiner]
  {
    SplitNone(v.joiner, ' ');
  }

  lemma LeadingKept(v: Names, n: nat)
    requires v.Valid() && n < LIMIT
    ensures n - n % 100 < LIMIT && LeadingParts(v, n - n % 100) == LeadingParts(v, n)
    ensures LeadingParts(v, n) == [] <==> n < 100
  {
    HighDigits(n / 100, n % 100);
    assert n == 100 * (n / 100) + n % 100;
    DigitGroups(n);
  }

  lemma ByHundred(n: nat, q: nat, r: nat)
    requires n == 100 * q + r && r < 100
    ensures n / 100 == q && n % 100 == r
  {
  }

  lemma ByThousand(n: nat, q: nat, r: nat)
    requires n == 1000 * q + r && r < 1000
    ensures n / 1000 == q
  {
  }

  lemma ByLakh(n: nat, q: nat, r: nat)
    requires n == 100000 * q + r && r < 100000
    ensures n / 100000 == q
  {
  }

  lemma ByCrore(n: nat, q: nat, r: nat)
    requires n == 10000000 * q + r && r < 10000000
    ensures n / 10000000 == q
  {
  }

  /** Taking off the last two digits leaves the counts of the larger units. */
  lemma HighDigits(q: nat, r: nat)
    requires r < 100
    ensures (100 * q + r) % 100 == r && 100 * q / 100 == (100 * q + r) / 100
    ensures 100 * q / 1000 == (100 * q + r) / 1000 && 100 * q / 100000 == (100 * q + r) / 100000
    ensures 100 * q / 10000000 == (100 * q + r) / 10000000
  {
    var n, h := 100 * q + r, 100 * q;
    ByHundred(n, q, r);
    ByHundred(h, q, 0);
    ByThousand(n, q / 10, 100 * (q % 10) + r);
    ByThousand(h, q / 10, 100 * (q % 10));
    ByLakh(n, q / 1000, 100 * (q % 1000) + r);
    ByLakh(h, q / 1000, 100 * (q % 1000));
    ByCrore(n, q / 100000, 100 * (q % 100000) + r);
    ByCrore(h, q / 100000, 100 * (q % 100000));
  }

  lemma HighWords(v: Names, n: nat)
    requires Readable(v) && 100 <= n < LIMIT && n % 100 == 0
    ensures IndianWords(v, n).Some? && IndianWords(v, n).value == Join(LeadingParts(v, n), " ")
    ensures v.joiner !in Split(IndianWords(v, n).value, ' ')
  {
    LeadingKept(v, n);
    assert LeadingParts(v, n) + [] == LeadingParts(v, n);
    LeadingPlain(v, n);
    JoinedPlain(v, LeadingParts(v, n));
    NoJoiner(v, Join(LeadingParts(v, n), " "));
  }

  lemma LowWords(v: Names, n: nat)
    requires Readable(v) && 0 < n < 100
    ensures IndianWords(v, n).Some? && IndianWords(v, n).value == Under100(v, n)
    ensures v.joiner !in Split(IndianWords(v, n).value, ' ')
  {
    LeadingKept(v, n);
    assert Parts(v, n) == [Under100(v, n)];
    Under100Plain(v, n);
    NoJoiner(v, Under100(v, n));
  }

  // ---- Words of an amount ----

  lemma EndedWords(v: Names, words: string)
    requires Readable(v)
    ensures Split(Ended(v, words), ' ') == Split(words, ' ') + [v.rupees, v.only]
  {
    SpacedWords(words, v.rupees + " " + v.only);
    SpacedWords(v.rupees, v.only);
    SplitNone(v.rupees, ' ');
    SplitNone(v.only, ' ');
  }

  lemma RupeeWords(v: Names, amount: real)
    requires Readable(v) && amount >= 0.0 && RupeesInWords(v, amount).Some?
    ensures Split(RupeesInWords(v, amount).value, ' ')
      == (if Round(amount) == 0 then [v.zero] else Split(IndianWords(v, Round(amount)).value, ' ')) + [v.rupees, v.only]
  {
    if Round(amount) == 0 {
      SplitNone(v.zero, ' ');
      EndedWords(v, v.zero);
    } else {
      EndedWords(v, IndianWords(v, Round(amount)).value);
    }
  }

  lemma SignAlone(v: Names)
    requires Readable(v)
    ensures Split(v.negative, ' ') == [v.negative]
  {
    SplitNone(v.negative, ' ');
  }

  /** The sign first if there is one, then the number or the word for zero, then the two words of the currency. */
  lemma AmountWords(v: Names, amount: real)
    requires Readable(v) && AmountToWords(v, amount).Some?
    ensures var n := Round(if amount >= 0.0 then amount else -amount);
      Split(AmountToWords(v, amount).value, ' ')
      == (if amount >= 0.0 then [] else [v.negative])
         + (if n == 0 then [v.zero] else Split(IndianWords(v, n).value, ' ')) + [v.rupees, v.only]
  {
    hide RupeesInWords, IndianWords, Round, Apart, Filler, Unit;
    if amount >= 0.0 {
      RupeeWords(v, amount);
    } else {
      RupeeWords(v, -amount);
      SpacedWords(v.negative, RupeesInWords(v, -amount).value);
      SignAlone(v);
    }
  }

  lemma ExampleNumerals()
    ensures Under100(ENGLISH, 9) == "Nine" && Under100(ENGLISH, 13) == "Thirteen" && Under100(ENGLISH, 1) == "One"
    ensures Under100(ENGLISH, 83) == "Eighty Three"
  {
    assert "Eighty" + " " + "Three" == "Eighty Three";
  }

  lemma ExampleParts()
    ensures Parts(ENGLISH, 913183) == ["Nine Lakhs", "Thirteen Thousand", "One Hundred", "and Eighty Three"]
  {
    ExampleNumerals();
    hide Under100;
    assert "Nine" + " " + "Lakhs" == "Nine Lakhs" && "Thirteen" + " " + "Thousand" == "Thirteen Thousand";
    assert "One" + " " + "Hundred" == "One Hundred" && "and" + " " + "Eighty Three" == "and Eighty Three";
    assert LeadingParts(ENGLISH, 913183) == ["Nine Lakhs", "Thirteen Thousand", "One Hundred"];
  }

  lemma JoinFour(a: string, b: string, c: string, d: string)
    ensures Join([a, b, c, d], " ") == a + " " + (b + " " + (c + " " + d))
  {
    assert [a, b, c, d][1..] == [b, c, d] && [b, c, d][1..] == [c, d] && [c, d][1..] == [d];
    assert Join([c, d], " ") == c + " " + d;
    assert Join([b, c, d], " ") == b + " " + Join([c, d], " ");
  }

  /** The example of the documentation. */
  lemma AmountExample()
    ensures AmountToWords(ENGLISH, 913183.0).Some?
      && AmountToWords(ENGLISH, 913183.0).value
         == "Nine Lakhs" + " " + ("Thirteen Thousand" + " " + ("One Hundred" + " " + "and Eighty Three")) + " " + "Rupees Only/-"
  {
    ExampleParts();
    hide Parts, Join;
    JoinFour("Nine Lakhs", "Thirteen Thousand", "One Hundred", "and Eighty Three");
    assert Round(913183.0) == 913183;
    assert "Rupees" + " " + "Only/-" == "Rupees Only/-";
  }
}
