/** services/dc_creation.go: reading shipment items from the submitted form. */
module FormParsing {
  import opened Strings
  import opened Records
  import opened CreationSpec
  import opened Serials
  import Invariants
  import CreationAccounts
  import S = Strings

  type Form = map<string, seq<string>>

  /** The first value of a field; blank if there is none. */
  function ValueAt(form: Form, name: string): (value: string)
    ensures name in form && form[name] != [] ==> value == form[name][0]
    ensures name !in form || form[name] == [] ==> value == ""
  {
    if name in form && |form[name]| > 0 then form[name][0] else ""
  }

  // ---- Serials ----

  function SerialParts(raw: string): seq<string> {
    S.Split(ReplaceAll(ReplaceAll(raw, "\r\n", "\n"), ",", "\n"), '\n')
  }

  function ParsedSerials(raw: string): seq<string> {
    Entries(SerialParts(raw), |SerialParts(raw)|)
  }

  /** parseSerials */
  method ParseSerials(raw: string) returns (serials: seq<string>)
    ensures serials == ParsedSerials(raw)
    ensures forall t :: t in serials ==> Invariants.CleanText(t)
  {
    var parts := SerialParts(raw);
    serials := [];
    for i := 0 to |parts|
      invariant serials == Entries(parts, i)
      invariant forall t :: t in serials ==> Invariants.CleanText(t)
    {
      var p := Trim(parts[i]);
      if p != "" {
        serials := serials + [p];
      }
    }
  }

  lemma {:induction false} JoinReplaced(parts: seq<string>, sep: string, with: string)
    requires sep != "" && forall p :: p in parts ==> sep[0] !in p
    ensures ReplaceAll(Join(parts, sep), sep, with) == Join(parts, with)
  {
    if parts != [] {
      assert parts[0] in parts;
      if |parts| == 1 {
        ReplaceNothing(parts[0], sep, with);
      } else {
        var rest := Join(parts[1..], sep);
        JoinReplaced(parts[1..], sep, with);
        assert parts[0] + sep + rest == parts[0] + (sep + rest);
        ReplaceSkips(parts[0], sep + rest, sep, with);
        ReplaceHits(rest, sep, with);
        assert parts[0] + (with + Join(parts[1..], with)) == parts[0] + with + Join(parts[1..], with);
      }
    }
  }

  lemma {:induction false} JoinedWithout(parts: seq<string>, sep: string, c: char)
    requires c !in sep && forall p :: p in parts ==> c !in p
    ensures c !in Join(parts, sep)
  {
    if |parts| > 1 {
      JoinedWithout(parts[1..], sep, c);
    }
    if parts != [] {
      assert parts[0] in parts;
    }
  }

  lemma {:induction false} SplitJoined(parts: seq<string>, sep: char)
    requires parts != [] && forall p :: p in parts ==> sep !in p
    ensures S.Split(Join(parts, [sep]), sep) == parts
  {
    assert parts[0] in parts;
    if |parts| == 1 {
      SplitNone(parts[0], sep);
    } else {
      SplitJoined(parts[1..], sep);
      SplitConcat(parts[0], Join(parts[1..], [sep]), sep);
      SplitNone(parts[0], sep);
    }
  }

  /** Serials without line breaks or commas, as stored. */
  predicate Listable(serials: seq<string>) {
    serials != [] && forall t :: t in serials ==> Invariants.CleanText(t) && '\n' !in t && '\r' !in t && ',' !in t
  }

  lemma NormalisedJoin(serials: seq<string>, sep: string)
    requires Listable(serials) && (sep == "\n" || sep == "," || sep == "\r\n")
    ensures ReplaceAll(ReplaceAll(Join(serials, sep), "\r\n", "\n"), ",", "\n") == Join(serials, "\n")
  {
    if sep == "\r\n" {
      JoinReplaced(serials, "\r\n", "\n");
      JoinedWithout(serials, "\n", ',');
      ReplaceNothing(Join(serials, "\n"), ",", "\n");
    } else {
      JoinedWithout(serials, sep, '\r');
      ReplaceNothing(Join(serials, sep), "\r\n", "\n");
      if sep == "," {
        JoinReplaced(serials, ",", "\n");
      } else {
        JoinedWithout(serials, "\n", ',');
        ReplaceNothing(Join(serials, "\n"), ",", "\n");
      }
    }
  }

  /** A list written one to a line (either line ending) or separated by commas is read back as it is. */
  lemma ParsesWhatIsJoined(serials: seq<string>, sep: string)
    requires Listable(serials) && (sep == "\n" || sep == "," || sep == "\r\n")
    ensures ParsedSerials(Join(serials, sep)) == serials
  {
    NormalisedJoin(serials, sep);
    SplitJoined(serials, '\n');
    forall i | 0 <= i < |serials|
      ensures IsTrimmed(serials[i]) && serials[i] != ""
    {
      assert serials[i] in serials;
      assert Invariants.CleanText(serials[i]);
    }
    CleanEntries(serials, |serials|);
    assert serials[..|serials|] == serials;
  }

  // ---- Items ----

  /** The number parsers of the form, which never fail: what they cannot read is 0. */
  datatype Parsers = Parsers(integer: string -> int, decimal: string -> real)

  function QuantityName(key: string, i: nat): string {
    "qty_" + key + "_dest_" + Decimal(i)
  }

  function Quantities(form: Form, ps: Parsers, key: string, n: nat): (qs: seq<int>)
    ensures |qs| == n
  {
    seq(n, i requires 0 <= i < n => ps.integer(ValueAt(form, QuantityName(key, i))))
  }

  function Total(qs: seq<int>, n: nat): int
    requires n <= |qs|
  {
    if n == 0 then 0 else Total(qs, n - 1) + qs[n - 1]
  }

  function ItemOf(form: Form, ps: Parsers, key: string, n: nat): ItemParams {
    var qs := Quantities(form, ps, key, n);
    ItemParams(SourceKey(ValueAt(form, "item_type_" + key), ValueAt(form, "item_id_" + key)),
               ps.decimal(ValueAt(form, "item_rate_" + key)), ps.decimal(ValueAt(form, "item_tax_" + key)),
               qs, Total(qs, n), ParsedSerials(ValueAt(form, "serials_" + key)))
  }

  /** Every field of the item comes from the form field that is named after it and the item's key. */
  ghost predicate ReadFrom(form: Form, ps: Parsers, key: string, n: nat, it: ItemParams) {
    && it.key.itemType == ValueAt(form, "item_type_" + key) && it.key.itemId == ValueAt(form, "item_id_" + key)
    && it.rate == ps.decimal(ValueAt(form, "item_rate_" + key)) && it.taxPercent == ps.decimal(ValueAt(form, "item_tax_" + key))
    && |it.quantities| == n && it.total == CreationAccounts.QuantityTo(it, n)
    && (forall i :: 0 <= i < n ==> it.quantities[i] == ps.integer(ValueAt(form, "qty_" + key + "_dest_" + Decimal(i))))
    && it.serials == ParsedSerials(ValueAt(form, "serials_" + key))
  }

  function ItemKeys(form: Form): seq<string> {
    Distinct(if "item_keys" in form then form["item_keys"] else [])
  }

  lemma FieldsRead(form: Form, ps: Parsers, key: string, n: nat)
    ensures ReadFrom(form, ps, key, n, ItemOf(form, ps, key, n))
  {
    var it := ItemOf(form, ps, key, n);
    TotalIsQuantities(it, n);
    forall i | 0 <= i < n
      ensures it.quantities[i] == ps.integer(ValueAt(form, "qty_" + key + "_dest_" + Decimal(i)))
    {
      assert it.quantities[i] == ps.integer(ValueAt(form, QuantityName(key, i)));
    }
  }

  method UniqueKeys(keys: seq<string>) returns (unique: seq<string>)
    ensures unique == Distinct(keys)
  {
    var seen: set<string> := {};
    unique := [];
    assert keys[..0] == [];
    for i := 0 to |keys|
      invariant forall k :: k in seen <==> k in keys[..i]
      invariant unique == Distinct(keys[..i])
    {
      assert keys[..i + 1] == keys[..i] + [keys[i]];
      OneMore(keys[..i], keys[i]);
      if keys[i] !in seen {
        seen := seen + {keys[i]};
        unique := unique + [keys[i]];
      }
    }
    assert keys[..|keys|] == keys;
  }

  method ReadItem(form: Form, ps: Parsers, key: string, n: nat) returns (item: ItemParams)
    ensures item == ItemOf(form, ps, key, n)
  {
    var quantities: seq<int>, total := [], 0;
    ghost var qs := Quantities(form, ps, key, n);
    for i := 0 to n
      invariant quantities == qs[..i] && total == Total(qs, i)
    {
      var quantity := ps.integer(ValueAt(form, QuantityName(key, i)));
      quantities := quantities + [quantity];
      total := total + quantity;
    }
    var serials := ParseSerials(ValueAt(form, "serials_" + key));
    item := ItemParams(SourceKey(ValueAt(form, "item_type_" + key), ValueAt(form, "item_id_" + key)),
                       ps.decimal(ValueAt(form, "item_rate_" + key)), ps.decimal(ValueAt(form, "item_tax_" + key)),
                       quantities, total, serials);
  }

  /** ParseShipmentItemsFromForm: one item for each distinct key, in the order they first appear. */
  method ParseShipmentItems(form: Form, ps: Parsers, n: nat) returns (items: seq<ItemParams>)
    ensures var keys := ItemKeys(form);
      |items| == |keys| && forall k :: 0 <= k < |keys| ==> items[k] == ItemOf(form, ps, keys[k], n) && ReadFrom(form, ps, keys[k], n, items[k])
  {
    hide ReadFrom, ItemOf;
    var unique := UniqueKeys(if "item_keys" in form then form["item_keys"] else []);
    items := [];
    for i := 0 to |unique|
      invariant |items| == i && forall k :: 0 <= k < i ==> items[k] == ItemOf(form, ps, unique[k], n) && ReadFrom(form, ps, unique[k], n, items[k])
    {
      var item := ReadItem(form, ps, unique[i], n);
      FieldsRead(form, ps, unique[i], n);
      items := items + [item];
    }
  }

  // ---- What the creation services get ----

  lemma {:induction false} TotalIsQuantities(it: ItemParams, n: nat)
    requires n <= |it.quantities|
    ensures Total(it.quantities, n) == CreationAccounts.QuantityTo(it, n)
  {
    if n > 0 {
      TotalIsQuantities(it, n - 1);
    }
  }

  lemma {:induction false} EntriesClean(input: seq<string>, n: nat)
    requires n <= |input|
    ensures forall t :: t in Entries(input, n) ==> Invariants.CleanText(t)
  {
    if n > 0 {
      EntriesClean(input, n - 1);
    }
  }

  lemma ParsedItem(form: Form, ps: Parsers, key: string, n: nat)
    ensures var it := ItemOf(form, ps, key, n);
      && |it.quantities| == n && it.total == CreationAccounts.QuantityTo(it, n)
      && forall t :: t in it.serials ==> Invariants.CleanText(t)
  {
    var parts := SerialParts(ValueAt(form, "serials_" + key));
    TotalIsQuantities(ItemOf(form, ps, key, n), n);
    EntriesClean(parts, |parts|);
  }

  /** One item as the creation services rely on it. */
  ghost predicate ItemParsed(it: ItemParams, n: nat) {
    && |it.quantities| == n && it.total == CreationAccounts.QuantityTo(it, n)
    && forall t :: t in it.serials ==> Invariants.CleanText(t)
  }

  lemma ItemsParsed(form: Form, ps: Parsers, items: seq<ItemParams>, n: nat)
    requires |items| == |ItemKeys(form)| && forall k :: 0 <= k < |items| ==> items[k] == ItemOf(form, ps, ItemKeys(form)[k], n)
    ensures forall k :: 0 <= k < |items| ==> ItemParsed(items[k], n)
  {
    forall k | 0 <= k < |items|
      ensures ItemParsed(items[k], n)
    {
      ParsedItem(form, ps, ItemKeys(form)[k], n);
    }
  }

  /** Parsed items satisfy what creation relies on, as soon as the wizard has checked that every destination is
      filled in and no quantity is negative, and the items come from different sources. */
  lemma ParsedItemsAreWellFormed(form: Form, ps: Parsers, p: CreateParams)
    requires p.shipTos != [] && forall i :: 0 <= i < |p.shipTos| ==> p.shipTos[i] != 0
    requires |p.items| == |ItemKeys(form)| && forall k :: 0 <= k < |p.items| ==> p.items[k] == ItemOf(form, ps, ItemKeys(form)[k], |p.shipTos|)
    requires forall j, k :: 0 <= j < k < |p.items| ==> p.items[j].key != p.items[k].key
    requires forall k, i :: 0 <= k < |p.items| && 0 <= i < |p.shipTos| ==> p.items[k].QuantityAt(i) >= 0
    ensures CreationAccounts.WellFormed(p)
  {
    ItemsParsed(form, ps, p.items, |p.shipTos|);
    ParsedAreWellFormed(p);
  }

  lemma ParsedAreWellFormed(p: CreateParams)
    requires p.shipTos != [] && forall i :: 0 <= i < |p.shipTos| ==> p.shipTos[i] != 0
    requires forall k :: 0 <= k < |p.items| ==> ItemParsed(p.items[k], |p.shipTos|)
    requires forall j, k :: 0 <= j < k < |p.items| ==> p.items[j].key != p.items[k].key
    requires forall k, i :: 0 <= k < |p.items| && 0 <= i < |p.shipTos| ==> p.items[k].QuantityAt(i) >= 0
    ensures CreationAccounts.WellFormed(p)
  {
    forall k, i | 0 <= k < |p.items| && 0 <= i < |p.shipTos|
      ensures p.items[k].quantities[i] >= 0
    {
      assert p.items[k].QuantityAt(i) >= 0;
    }
  }
}
