/** Serial numbers: cleaning, and the checks of services/serial_validation.go. */
module Serials {

  predicate IsSpace(c: char) {
    c == ' ' || c == '\t' || c == '\n' || c == '\r' || c == 11 as char || c == 12 as char
    || c == 0x85 as char || c == 0xA0 as char || c == 0x1680 as char || 0x2000 as char <= c <= 0x200A as char
    || c == 0x2028 as char || c == 0x2029 as char || c == 0x202F as char || c == 0x205F as char || c == 0x3000 as char
  }

  predicate IsTrimmed(s: string) {
    s != "" ==> !IsSpace(s[0]) && !IsSpace(s[|s| - 1])
  }

  function Trim(s: string): (t: string)
    ensures IsTrimmed(t)
    ensures IsTrimmed(s) ==> t == s
  {
    if s == "" then s
    else if IsSpace(s[0]) then Trim(s[1..])
    else if IsSpace(s[|s| - 1]) then Trim(s[..|s| - 1])
    else s
  }

  predicate AllSpace(s: string) {
    forall c :: c in s ==> IsSpace(c)
  }

  /** Trimming takes white space off both ends, and nothing else. */
  lemma {:induction false} TrimCuts(s: string) returns (front: string, back: string)
    ensures s == front + Trim(s) + back && AllSpace(front) && AllSpace(back)
    ensures AllSpace(s) ==> Trim(s) == ""
  {
    front, back := "", "";
    if s == "" {
    } else if IsSpace(s[0]) {
      front, back := TrimCuts(s[1..]);
      front := [s[0]] + front;
    } else if IsSpace(s[|s| - 1]) {
      front, back := TrimCuts(s[..|s| - 1]);
      back := back + [s[|s| - 1]];
      assert s == s[..|s| - 1] + [s[|s| - 1]];
    }
  }

  /** The trimmed, non-blank entries among the first n of input. */
  function Entries(input: seq<string>, n: nat): seq<string>
    requires n <= |input|
  {
    if n == 0 then [] else
      Entries(input, n - 1) + if Trim(input[n - 1]) == "" then [] else [Trim(input[n - 1])]
  }

  /** First occurrences, in order. */
  function Distinct(es: seq<string>): (r: seq<string>)
    ensures forall x :: x in r <==> x in es
    ensures NoRepeats(r)
  {
    if es == [] then [] else
      var r := Distinct(es[..|es| - 1]);
      if es[|es| - 1] in es[..|es| - 1] then r else r + [es[|es| - 1]]
  }

  /** Later occurrences, in order. */
  function Repeats(es: seq<string>): seq<string> {
    if es == [] then [] else
      Repeats(es[..|es| - 1]) + if es[|es| - 1] in es[..|es| - 1] then [es[|es| - 1]] else []
  }

  function Known<V>(es: seq<string>, existing: map<string, V>, n: nat): seq<(string, V)>
    requires n <= |es|
  {
    if n == 0 then [] else
      Known(es, existing, n - 1) + if es[n - 1] in existing then [(es[n - 1], existing[es[n - 1]])] else []
  }

  predicate NoRepeats(es: seq<string>) {
    forall i, j :: 0 <= i < j < |es| ==> es[i] != es[j]
  }

  datatype Verdict<V> = Verdict(valid: bool, repeated: seq<string>, known: seq<(string, V)>,
                                countMismatch: bool, expected: nat, got: nat)

  lemma OneMore(es: seq<string>, e: string)
    ensures Distinct(es + [e]) == if e in es then Distinct(es) else Distinct(es) + [e]
    ensures Repeats(es + [e]) == if e in es then Repeats(es) + [e] else Repeats(es)
  {
    assert (es + [e])[..|es|] == es;
  }

  /** The cleaning loop: the distinct entries, and the entries seen before. */
  method Clean(input: seq<string>) returns (cleaned: seq<string>, repeated: seq<string>)
    ensures cleaned == Distinct(Entries(input, |input|))
    ensures repeated == Repeats(Entries(input, |input|))
  {
    ghost var es := [];
    var seen: set<string> := {};
    cleaned, repeated := [], [];
    for i := 0 to |input|
      invariant es == Entries(input, i)
      invariant forall x :: x in seen <==> x in es
      invariant cleaned == Distinct(es)
      invariant repeated == Repeats(es)
    {
      var s := Trim(input[i]);
      if s != "" {
        OneMore(es, s);
        if s in seen {
          repeated := repeated + [s];
        } else {
          seen := seen + {s};
          cleaned := cleaned + [s];
        }
        es := es + [s];
      }
    }
  }

  /** The lookup loop: the cleaned entries that are already on record. */
  method LookUp<V>(cleaned: seq<string>, existing: map<string, V>) returns (known: seq<(string, V)>)
    ensures known == Known(cleaned, existing, |cleaned|)
  {
    known := [];
    for i := 0 to |cleaned|
      invariant known == Known(cleaned, existing, i)
    {
      if cleaned[i] in existing {
        known := known + [(cleaned[i], existing[cleaned[i]])];
      }
    }
  }

  method ValidateSerials<V>(input: seq<string>, expectedQty: nat, existing: map<string, V>)
    returns (r: Verdict<V>)
    ensures var es := Entries(input, |input|);
            && r.repeated == Repeats(es)
            && r.known == Known(Distinct(es), existing, |Distinct(es)|)
            && (r.countMismatch <==> |Distinct(es)| != expectedQty)
            && (r.countMismatch ==> r.expected == expectedQty && r.got == |Distinct(es)|)
            && (r.valid <==> NoRepeats(es) && |es| == expectedQty && forall e :: e in es ==> e !in existing)
  {
    var cleaned, repeated := Clean(input);
    var known := LookUp(cleaned, existing);
    ValidExactly(input, expectedQty, existing);
    if |cleaned| != expectedQty {
      r := Verdict(false, repeated, known, true, expectedQty, |cleaned|);
    } else {
      r := Verdict(repeated == [] && known == [], repeated, known, false, 0, 0);
    }
  }

  // ---- What the verdict means ----

  lemma {:induction false} RepeatsNone(es: seq<string>)
    ensures Repeats(es) == [] <==> NoRepeats(es)
    ensures NoRepeats(es) ==> Distinct(es) == es
    ensures !NoRepeats(es) ==> |Distinct(es)| < |es|
  {
    if es != [] {
      var n := |es| - 1;
      RepeatsNone(es[..n]);
      DistinctNoLonger(es[..n]);
      assert es == es[..n] + [es[n]];
      if es[n] in es[..n] {
        var i :| 0 <= i < n && es[i] == es[n];
      } else {
        assert NoRepeats(es) <==> NoRepeats(es[..n]);
      }
    }
  }

  lemma DistinctNoLonger(es: seq<string>)
    ensures |Distinct(es)| <= |es|
  {
  }

  lemma {:induction false} KnownNone<V>(es: seq<string>, existing: map<string, V>, n: nat)
    requires n <= |es|
    ensures Known(es, existing, n) == [] <==> forall i :: 0 <= i < n ==> es[i] !in existing
  {
    if n > 0 {
      KnownNone(es, existing, n - 1);
    }
  }

  /** The conflicts are the entries on record, each with what is on record, and none twice. */
  lemma {:induction false} KnownExactly<V>(es: seq<string>, existing: map<string, V>, n: nat)
    requires n <= |es|
    ensures forall k :: k in Known(es, existing, n) <==> k.0 in es[..n] && k.0 in existing && k.1 == existing[k.0]
    ensures NoRepeats(es) ==> forall i, j :: 0 <= i < j < |Known(es, existing, n)| ==> Known(es, existing, n)[i] != Known(es, existing, n)[j]
  {
    if n > 0 {
      KnownExactly(es, existing, n - 1);
      assert es[..n] == es[..n - 1] + [es[n - 1]];
    }
  }

  /** A list passes exactly when its entries are pairwise distinct, as many as expected, and new. */
  lemma ValidExactly<V>(input: seq<string>, expectedQty: nat, existing: map<string, V>)
    ensures var es := Entries(input, |input|);
            (Repeats(es) == [] && Known(Distinct(es), existing, |Distinct(es)|) == []
             && |Distinct(es)| == expectedQty)
            <==>
            (NoRepeats(es) && |es| == expectedQty && forall e :: e in es ==> e !in existing)
  {
    var es := Entries(input, |input|);
    RepeatsNone(es);
    KnownNone(Distinct(es), existing, |Distinct(es)|);
  }

  /** Entries of a list that is already clean are the list itself. */
  lemma {:induction false} CleanEntries(input: seq<string>, n: nat)
    requires n <= |input|
    requires forall i :: 0 <= i < n ==> IsTrimmed(input[i]) && input[i] != ""
    ensures Entries(input, n) == input[..n]
  {
    if n > 0 {
      CleanEntries(input, n - 1);
      assert input[..n] == input[..n - 1] + [input[n - 1]];
    }
  }
}
