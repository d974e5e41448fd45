/** services/address_import.go and the row loop of services/csv_import.go: two validations of the
    imported rows, and the chunk-wise commit. */
module AddressImport {
  import opened Tables
  import Serials

  type Row = map<string, string>

  /** A missing value is blank. */
  function Field(row: Row, key: string): string {
    if key in row then row[key] else ""
  }

  datatype AddressKind = ShipTo | InstallAt

  datatype Address = Address(project: Id, kind: AddressKind, data: Row, parent: Id)

  datatype RowError = RowError(row: nat, field: string)

  /** Required keys, in the order they are looked at, and the format validators by field. */
  datatype Rules = Rules(required: seq<string>, valid: (string, string) -> bool)

  const FORMATTED: seq<string> := ["pin_code", "phone", "email", "gstin", "pan", "cin"]

  const REFERENCE := "ship_to_reference"

  const COMPANY := "company_name"

  const CHUNK := 100

  // ---- What is wrong with a row ----

  function RequiredErrors(rules: Rules, number: nat, row: Row, n: nat): seq<RowError>
    requires n <= |rules.required|
  {
    if n == 0 then [] else
      RequiredErrors(rules, number, row, n - 1)
      + if Field(row, rules.required[n - 1]) == "" then [RowError(number, rules.required[n - 1])] else []
  }

  function FormatErrors(rules: Rules, number: nat, row: Row, n: nat): seq<RowError>
    requires n <= |FORMATTED|
  {
    if n == 0 then [] else
      var value := Field(row, FORMATTED[n - 1]);
      FormatErrors(rules, number, row, n - 1)
      + if value != "" && !rules.valid(FORMATTED[n - 1], value) then [RowError(number, FORMATTED[n - 1])] else []
  }

  /** Install-at rows may only refer to known ship-to names. */
  function ReferenceErrors(kind: AddressKind, names: set<string>, number: nat, row: Row): seq<RowError> {
    if kind == InstallAt && Field(row, REFERENCE) != "" && Field(row, REFERENCE) !in names
    then [RowError(number, REFERENCE)] else []
  }

  function RowErrors(rules: Rules, kind: AddressKind, names: set<string>, number: nat, row: Row): seq<RowError> {
    RequiredErrors(rules, number, row, |rules.required|) + FormatErrors(rules, number, row, |FORMATTED|)
    + ReferenceErrors(kind, names, number, row)
  }

  /** The errors row by row; rows are numbered from 2, after the header. */
  function Findings(rules: Rules, kind: AddressKind, names: set<string>, rows: seq<Row>): (fs: seq<seq<RowError>>)
    ensures |fs| == |rows|
  {
    seq(|rows|, i requires 0 <= i < |rows| => RowErrors(rules, kind, names, i + 2, rows[i]))
  }

  /** The errors of the first n rows in one list. */
  function Flat(fs: seq<seq<RowError>>, n: nat): seq<RowError>
    requires n <= |fs|
  {
    if n == 0 then [] else Flat(fs, n - 1) + fs[n - 1]
  }

  function AllErrors(rules: Rules, kind: AddressKind, names: set<string>, rows: seq<Row>): seq<RowError> {
    Flat(Findings(rules, kind, names, rows), |rows|)
  }

  lemma {:induction false} RequiredExactly(rules: Rules, number: nat, row: Row, n: nat)
    requires n <= |rules.required|
    ensures forall e :: e in RequiredErrors(rules, number, row, n) <==>
      e.row == number && e.field in rules.required[..n] && (e.field !in row || row[e.field] == "")
  {
    if n > 0 {
      RequiredExactly(rules, number, row, n - 1);
      assert rules.required[..n] == rules.required[..n - 1] + [rules.required[n - 1]];
    }
  }

  lemma {:induction false} FormatsExactly(rules: Rules, number: nat, row: Row, n: nat)
    requires n <= |FORMATTED|
    ensures forall e :: e in FormatErrors(rules, number, row, n) <==>
      e.row == number && e.field in FORMATTED[..n] && e.field in row && row[e.field] != "" && !rules.valid(e.field, row[e.field])
  {
    if n > 0 {
      FormatsExactly(rules, number, row, n - 1);
      assert FORMATTED[..n] == FORMATTED[..n - 1] + [FORMATTED[n - 1]];
    }
  }

  /** Field f of a row is wrong: required and blank, filled in with a wrong format, or an unknown reference. */
  ghost predicate Wrong(rules: Rules, kind: AddressKind, names: set<string>, row: Row, f: string) {
    || (f in rules.required && (f !in row || row[f] == ""))
    || (f in {"pin_code", "phone", "email", "gstin", "pan", "cin"} && f in row && row[f] != "" && !rules.valid(f, row[f]))
    || (f == "ship_to_reference" && kind == InstallAt && f in row && row[f] != "" && row[f] !in names)
  }

  /** A row's errors are about exactly the fields that are wrong. */
  lemma RowErrorsExactly(rules: Rules, kind: AddressKind, names: set<string>, number: nat, row: Row)
    ensures forall e :: e in RowErrors(rules, kind, names, number, row) <==> e.row == number && Wrong(rules, kind, names, row, e.field)
  {
    RequiredExactly(rules, number, row, |rules.required|);
    FormatsExactly(rules, number, row, |FORMATTED|);
    assert rules.required[..|rules.required|] == rules.required && FORMATTED[..|FORMATTED|] == FORMATTED;
  }

  lemma {:induction false} FlatMembers(fs: seq<seq<RowError>>, n: nat, e: RowError)
    requires n <= |fs|
    ensures e in Flat(fs, n) <==> exists i :: 0 <= i < n && e in fs[i]
  {
    if n > 0 {
      FlatMembers(fs, n - 1, e);
    }
  }

  /** The errors of a file are about exactly the fields that are wrong, and name their rows, the first of which is row 2. */
  lemma AllErrorsExactly(rules: Rules, kind: AddressKind, names: set<string>, rows: seq<Row>, e: RowError)
    ensures e in AllErrors(rules, kind, names, rows) <==>
      2 <= e.row < |rows| + 2 && Wrong(rules, kind, names, rows[e.row - 2], e.field)
  {
    hide RowErrors, Wrong, Flat;
    var fs := Findings(rules, kind, names, rows);
    FlatMembers(fs, |rows|, e);
    forall i | 0 <= i < |rows|
      ensures e in fs[i] <==> e.row == i + 2 && Wrong(rules, kind, names, rows[i], e.field)
    {
      RowErrorsExactly(rules, kind, names, i + 2, rows[i]);
    }
    if 2 <= e.row < |rows| + 2 && Wrong(rules, kind, names, rows[e.row - 2], e.field) {
      assert e in fs[e.row - 2];
    }
  }

  method CheckRow(rules: Rules, kind: AddressKind, names: set<string>, number: nat, row: Row) returns (errors: seq<RowError>)
    ensures errors == RowErrors(rules, kind, names, number, row)
  {
    errors := [];
    for i := 0 to |rules.required|
      invariant errors == RequiredErrors(rules, number, row, i)
    {
      if Field(row, rules.required[i]) == "" {
        errors := errors + [RowError(number, rules.required[i])];
      }
    }
    var formats: seq<RowError> := [];
    for i := 0 to |FORMATTED|
      invariant formats == FormatErrors(rules, number, row, i)
    {
      var value := Field(row, FORMATTED[i]);
      if value != "" && !rules.valid(FORMATTED[i], value) {
        formats := formats + [RowError(number, FORMATTED[i])];
      }
    }
    errors := errors + formats;
    if kind == InstallAt {
      var ref := Field(row, REFERENCE);
      if ref != "" && ref !in names {
        errors := errors + [RowError(number, REFERENCE)];
      }
    }
  }

  // ---- The address book ----

  function CompanyOf(a: Address): string {
    Field(a.data, COMPANY)
  }

  function ShipTos(addresses: Table<Address>, project: Id): set<Id> {
    set i | i in addresses.rows && addresses.rows[i].project == project && addresses.rows[i].kind == ShipTo
  }

  ghost function ShipToNames(addresses: Table<Address>, project: Id): set<string> {
    set i | i in ShipTos(addresses, project) && CompanyOf(addresses.rows[i]) != "" :: CompanyOf(addresses.rows[i])
  }

  class AddressBook {
    var addresses: Table<Address>

    constructor ()
      ensures addresses == Table(map[], 1)
    {
      addresses := Table(map[], 1);
    }

    /** loadShipToCompanyNames */
    method LoadShipToCompanyNames(project: Id) returns (names: set<string>)
      ensures names == ShipToNames(addresses, project)
    {
      names := {};
      var ids := Ascending(ShipTos(addresses, project));
      for i := 0 to |ids|
        invariant names == NamesAmong(addresses, ids[..i])
      {
        assert ids[i] in ids;
        NextName(addresses, ids, i);
        var name := CompanyOf(addresses.rows[ids[i]]);
        if name != "" {
          names := names + {name};
        }
      }
      NamesCollected(addresses, project);
    }

    /** buildShipToLookup: the last address of a name wins. */
    method BuildShipToLookup(project: Id) returns (lookup: map<string, Id>)
      ensures lookup.Keys == ShipToNames(addresses, project) && LooksUp(addresses, project, lookup)
    {
      hide LookupOf, LooksUp;
      EmptyLookup(addresses, project);
      lookup := map[];
      var ids := Ascending(ShipTos(addresses, project));
      for i := 0 to |ids|
        invariant LookupOf(addresses, project, ids, i, lookup)
      {
        assert ids[i] in ids;
        NextLookup(addresses, project, ids, i, lookup);
        var name := CompanyOf(addresses.rows[ids[i]]);
        if name != "" {
          lookup := lookup[name := ids[i]];
        }
      }
      FullLookup(addresses, project, lookup);
    }
  }

  /** Each name leads to the latest ship-to address of that name. */
  ghost predicate LooksUp(addresses: Table<Address>, project: Id, lookup: map<string, Id>) {
    && LeadsToName(addresses, project, lookup)
    && forall i :: i in ShipTos(addresses, project) && CompanyOf(addresses.rows[i]) in lookup ==> i <= lookup[CompanyOf(addresses.rows[i])]
  }

  ghost predicate LeadsToName(addresses: Table<Address>, project: Id, lookup: map<string, Id>) {
    forall name :: name in lookup ==>
      lookup[name] in ShipTos(addresses, project) && CompanyOf(addresses.rows[lookup[name]]) == name
  }

  /** The lookup made from the first n of ids. */
  ghost predicate LookupOf(addresses: Table<Address>, project: Id, ids: seq<Id>, n: nat, lookup: map<string, Id>) {
    && n <= |ids| && lookup.Keys == NamesAmong(addresses, ids[..n]) && LeadsToName(addresses, project, lookup)
    && LatestAmong(addresses, ids, n, lookup)
  }

  lemma EmptyLookup(addresses: Table<Address>, project: Id)
    ensures LookupOf(addresses, project, Ascending(ShipTos(addresses, project)), 0, map[])
  {
  }

  lemma FullLookup(addresses: Table<Address>, project: Id, lookup: map<string, Id>)
    requires var ids := Ascending(ShipTos(addresses, project)); LookupOf(addresses, project, ids, |ids|, lookup)
    ensures lookup.Keys == ShipToNames(addresses, project) && LooksUp(addresses, project, lookup)
  {
    var ids := Ascending(ShipTos(addresses, project));
    NamesCollected(addresses, project);
    forall i | i in ShipTos(addresses, project) && CompanyOf(addresses.rows[i]) in lookup
      ensures i <= lookup[CompanyOf(addresses.rows[i])]
    {
      var k :| 0 <= k < |ids| && ids[k] == i;
    }
  }

  /** No name leads to an older address than another one of that name among the first n. */
  ghost predicate LatestAmong(addresses: Table<Address>, ids: seq<Id>, n: nat, lookup: map<string, Id>)
    requires n <= |ids|
  {
    forall k :: 0 <= k < n && ids[k] in addresses.rows && CompanyOf(addresses.rows[ids[k]]) in lookup ==>
      ids[k] <= lookup[CompanyOf(addresses.rows[ids[k]])]
  }

  lemma NextLatest(addresses: Table<Address>, ids: seq<Id>, n: nat, lookup: map<string, Id>)
    requires n < |ids| && ids[n] in addresses.rows && LatestAmong(addresses, ids, n, lookup)
    requires forall j, k :: 0 <= j < k < |ids| ==> ids[j] < ids[k]
    ensures var name := CompanyOf(addresses.rows[ids[n]]);
      LatestAmong(addresses, ids, n + 1, if name == "" && "" !in lookup then lookup else lookup[name := ids[n]])
  {
    hide CompanyOf;
  }

  lemma NextLookup(addresses: Table<Address>, project: Id, ids: seq<Id>, n: nat, lookup: map<string, Id>)
    requires n < |ids| && ids[n] in ShipTos(addresses, project) && LookupOf(addresses, project, ids, n, lookup)
    requires forall j, k :: 0 <= j < k < |ids| ==> ids[j] < ids[k]
    ensures var name := CompanyOf(addresses.rows[ids[n]]);
      LookupOf(addresses, project, ids, n + 1, if name == "" then lookup else lookup[name := ids[n]])
  {
    hide CompanyOf, LatestAmong;
    NextLatest(addresses, ids, n, lookup);
    var name := CompanyOf(addresses.rows[ids[n]]);
    NextName(addresses, ids, n);
    assert lookup[name := ids[n]].Keys == lookup.Keys + {name};
  }

  ghost function NamesAmong(addresses: Table<Address>, ids: seq<Id>): set<string> {
    set i | i in ids && i in addresses.rows && CompanyOf(addresses.rows[i]) != "" :: CompanyOf(addresses.rows[i])
  }

  lemma NextName(addresses: Table<Address>, ids: seq<Id>, i: nat)
    requires i < |ids| && ids[i] in addresses.rows
    ensures NamesAmong(addresses, ids[..i + 1]) ==
      NamesAmong(addresses, ids[..i]) + if CompanyOf(addresses.rows[ids[i]]) != "" then {CompanyOf(addresses.rows[ids[i]])} else {}
  {
    assert ids[..i + 1] == ids[..i] + [ids[i]];
  }

  lemma NamesCollected(addresses: Table<Address>, project: Id)
    ensures var ids := Ascending(ShipTos(addresses, project));
      ids[..|ids|] == ids && NamesAmong(addresses, ids) == ShipToNames(addresses, project)
  {
  }

  // ---- The first validation ----

  datatype Validation = Validation(parsed: seq<Row>, errors: seq<RowError>, errorRows: nat, validRows: nat)

  /** The row read from the first n columns; columns without a key are skipped, missing cells are blank. */
  function ParsedRow(keys: seq<string>, cells: seq<string>, n: nat): Row
    requires n <= |keys|
  {
    if n == 0 then map[]
    else if keys[n - 1] == "" then ParsedRow(keys, cells, n - 1)
    else ParsedRow(keys, cells, n - 1)[keys[n - 1] := if n - 1 < |cells| then Serials.Trim(cells[n - 1]) else ""]
  }

  /** Column j is the last one with its key among the first n. */
  ghost predicate LastColumn(keys: seq<string>, j: nat, n: nat)
    requires n <= |keys|
  {
    j < n && keys[j] != "" && forall k :: j < k < n ==> keys[k] != keys[j]
  }

  lemma {:induction false} ParsedColumn(keys: seq<string>, cells: seq<string>, n: nat, j: nat)
    requires n <= |keys| && LastColumn(keys, j, n)
    ensures keys[j] in ParsedRow(keys, cells, n)
      && ParsedRow(keys, cells, n)[keys[j]] == if j < |cells| then Serials.Trim(cells[j]) else ""
  {
    if j < n - 1 {
      assert keys[n - 1] != keys[j];
      ParsedColumn(keys, cells, n - 1, j);
    }
  }

  lemma {:induction false} ColumnOfKey(keys: seq<string>, cells: seq<string>, n: nat, key: string) returns (j: nat)
    requires n <= |keys| && key in ParsedRow(keys, cells, n)
    ensures LastColumn(keys, j, n) && keys[j] == key
  {
    if key == keys[n - 1] && key != "" {
      j := n - 1;
    } else {
      j := ColumnOfKey(keys, cells, n - 1, key);
    }
  }

  /** row holds for every key the trimmed cell of the last column with that key, blank if there are fewer cells. */
  ghost predicate ReadByColumn(keys: seq<string>, cells: seq<string>, row: Row) {
    && (forall key :: key in row ==> exists j: nat :: LastColumn(keys, j, |keys|) && keys[j] == key)
    && forall j: nat :: LastColumn(keys, j, |keys|) ==>
         keys[j] in row && row[keys[j]] == if j < |cells| then Serials.Trim(cells[j]) else ""
  }

  lemma ParsedByColumn(keys: seq<string>, cells: seq<string>)
    ensures ReadByColumn(keys, cells, ParsedRow(keys, cells, |keys|))
  {
    hide ParsedRow;
    var row := ParsedRow(keys, cells, |keys|);
    forall key | key in row
      ensures exists j: nat :: LastColumn(keys, j, |keys|) && keys[j] == key
    {
      var j := ColumnOfKey(keys, cells, |keys|, key);
    }
    forall j: nat | LastColumn(keys, j, |keys|)
      ensures keys[j] in row && row[keys[j]] == if j < |cells| then Serials.Trim(cells[j]) else ""
    {
      ParsedColumn(keys, cells, |keys|, j);
    }
  }

  function ErrorRowNumbers(errors: seq<RowError>): set<nat> {
    set e | e in errors :: e.row
  }

  method ParseRow(keys: seq<string>, cells: seq<string>) returns (row: Row)
    ensures row == ParsedRow(keys, cells, |keys|) && ReadByColumn(keys, cells, row)
  {
    hide ReadByColumn;
    ParsedByColumn(keys, cells);
    row := map[];
    for i := 0 to |keys|
      invariant row == ParsedRow(keys, cells, i)
    {
      if keys[i] != "" {
        row := row[keys[i] := if i < |cells| then Serials.Trim(cells[i]) else ""];
      }
    }
  }

  lemma NumbersConcat(a: seq<RowError>, b: seq<RowError>)
    ensures ErrorRowNumbers(a + b) == ErrorRowNumbers(a) + ErrorRowNumbers(b)
  {
    forall e | e in a || e in b
      ensures e in a + b
    {
    }
  }

  lemma NumbersOfRow(errors: seq<RowError>, number: nat)
    requires forall e :: e in errors ==> e.row == number
    ensures ErrorRowNumbers(errors) == if errors == [] then {} else {number}
  {
    if errors != [] {
      assert errors[0] in errors;
    }
  }

  ghost predicate NumberedFromTwo(fs: seq<seq<RowError>>) {
    forall i, e :: 0 <= i < |fs| && e in fs[i] ==> e.row == i + 2
  }

  /** How many of the first n rows have errors. */
  function BadRows(fs: seq<seq<RowError>>, n: nat): (bad: nat)
    requires n <= |fs|
    ensures bad <= n
  {
    if n == 0 then 0 else BadRows(fs, n - 1) + if fs[n - 1] == [] then 0 else 1
  }

  /** The error row numbers are as many as the rows that have errors, however many errors each has. */
  lemma {:induction false} ErrorRowsCounted(fs: seq<seq<RowError>>, n: nat)
    requires n <= |fs| && NumberedFromTwo(fs)
    ensures |ErrorRowNumbers(Flat(fs, n))| == BadRows(fs, n)
    ensures forall x :: x in ErrorRowNumbers(Flat(fs, n)) ==> x < n + 2
  {
    if n > 0 {
      ErrorRowsCounted(fs, n - 1);
      NumbersConcat(Flat(fs, n - 1), fs[n - 1]);
      NumbersOfRow(fs[n - 1], n + 1);
    }
  }

  lemma {:induction false} RequiredNumbered(rules: Rules, number: nat, row: Row, n: nat)
    requires n <= |rules.required|
    ensures forall e :: e in RequiredErrors(rules, number, row, n) ==> e.row == number
  {
    if n > 0 {
      RequiredNumbered(rules, number, row, n - 1);
    }
  }

  lemma {:induction false} FormatsNumbered(rules: Rules, number: nat, row: Row, n: nat)
    requires n <= |FORMATTED|
    ensures forall e :: e in FormatErrors(rules, number, row, n) ==> e.row == number
  {
    if n > 0 {
      FormatsNumbered(rules, number, row, n - 1);
    }
  }

  lemma RowErrorsNumbered(rules: Rules, kind: AddressKind, names: set<string>, number: nat, row: Row)
    ensures forall e :: e in RowErrors(rules, kind, names, number, row) ==> e.row == number
  {
    RequiredNumbered(rules, number, row, |rules.required|);
    FormatsNumbered(rules, number, row, |FORMATTED|);
  }

  lemma FindingsNumbered(rules: Rules, kind: AddressKind, names: set<string>, rows: seq<Row>)
    ensures NumberedFromTwo(Findings(rules, kind, names, rows))
  {
    forall i | 0 <= i < |rows|
      ensures forall e :: e in Findings(rules, kind, names, rows)[i] ==> e.row == i + 2
    {
      RowErrorsNumbered(rules, kind, names, i + 2, rows[i]);
    }
  }

  /** The row loop of ValidateAddressFile. A row counts as an error row however many errors it has. */
  method ValidateRows(rules: Rules, kind: AddressKind, names: set<string>, keys: seq<string>, dataRows: seq<seq<string>>)
      returns (v: Validation)
    ensures |v.parsed| == |dataRows| && ParsedFrom(keys, dataRows, v.parsed)
    ensures v.errors == AllErrors(rules, kind, names, v.parsed)
    ensures forall e :: e in v.errors <==> 2 <= e.row < |dataRows| + 2 && Wrong(rules, kind, names, v.parsed[e.row - 2], e.field)
    ensures v.errorRows == BadRows(Findings(rules, kind, names, v.parsed), |dataRows|)
    ensures v.errorRows + v.validRows == |dataRows|
  {
    var parsed: seq<Row>, errors: seq<RowError> := [], [];
    for i := 0 to |dataRows|
      invariant |parsed| == i && ParsedFrom(keys, dataRows, parsed)
      invariant errors == AllErrors(rules, kind, names, parsed)
    {
      var row := ParseRow(keys, dataRows[i]);
      var rowErrors := CheckRow(rules, kind, names, i + 2, row);
      NextParsed(keys, dataRows, parsed, row);
      NextRow(rules, kind, names, parsed, row, i + 2);
      errors := errors + rowErrors;
      parsed := parsed + [row];
    }
    v := Summary(rules, kind, names, parsed, errors);
    forall e
      ensures e in v.errors <==> 2 <= e.row < |dataRows| + 2 && Wrong(rules, kind, names, v.parsed[e.row - 2], e.field)
    {
      AllErrorsExactly(rules, kind, names, v.parsed, e);
    }
  }

  ghost predicate ParsedFrom(keys: seq<string>, dataRows: seq<seq<string>>, parsed: seq<Row>) {
    |parsed| <= |dataRows| && forall k :: 0 <= k < |parsed| ==> ReadByColumn(keys, dataRows[k], parsed[k])
  }

  lemma NextParsed(keys: seq<string>, dataRows: seq<seq<string>>, parsed: seq<Row>, row: Row)
    requires ParsedFrom(keys, dataRows, parsed) && |parsed| < |dataRows| && ReadByColumn(keys, dataRows[|parsed|], row)
    ensures ParsedFrom(keys, dataRows, parsed + [row])
  {
    hide ReadByColumn;
  }

  /** The counts at the end of the validation. */
  method Summary(rules: Rules, kind: AddressKind, names: set<string>, parsed: seq<Row>, errors: seq<RowError>) returns (v: Validation)
    requires errors == AllErrors(rules, kind, names, parsed)
    ensures v.parsed == parsed && v.errors == errors
    ensures v.errorRows == BadRows(Findings(rules, kind, names, parsed), |parsed|) && v.errorRows + v.validRows == |parsed|
  {
    var numbers := set e | e in errors :: e.row;
    FindingsNumbered(rules, kind, names, parsed);
    ErrorRowsCounted(Findings(rules, kind, names, parsed), |parsed|);
    v := Validation(parsed, errors, |numbers|, |parsed| - |numbers|);
  }

  lemma {:induction false} FlatPrefix(fs: seq<seq<RowError>>, gs: seq<seq<RowError>>, n: nat)
    requires n <= |fs| && n <= |gs| && fs[..n] == gs[..n]
    ensures Flat(fs, n) == Flat(gs, n)
  {
    if n > 0 {
      assert fs[..n - 1] == fs[..n][..n - 1] && gs[..n - 1] == gs[..n][..n - 1];
      FlatPrefix(fs, gs, n - 1);
      assert fs[n - 1] == fs[..n][n - 1] == gs[..n][n - 1] == gs[n - 1];
    }
  }

  lemma NextRow(rules: Rules, kind: AddressKind, names: set<string>, rows: seq<Row>, row: Row, number: nat)
    requires number == |rows| + 2
    ensures AllErrors(rules, kind, names, rows + [row]) == AllErrors(rules, kind, names, rows) + RowErrors(rules, kind, names, number, row)
  {
    var fs, gs := Findings(rules, kind, names, rows), Findings(rules, kind, names, rows + [row]);
    assert gs == fs + [RowErrors(rules, kind, names, number, row)];
    FlatPrefix(fs, gs, |rows|);
  }

  // ---- The second validation, before the commit ----

  /** revalidateImportRows */
  method RevalidateRows(rules: Rules, kind: AddressKind, names: set<string>, rows: seq<Row>) returns (errors: seq<RowError>)
    ensures errors == AllErrors(rules, kind, names, rows)
  {
    hide RowErrors;
    ghost var fs := Findings(rules, kind, names, rows);
    errors := [];
    for i := 0 to |rows|
      invariant errors == Flat(fs, i)
    {
      var rowErrors := CheckRow(rules, kind, names, i + 2, rows[i]);
      errors := errors + rowErrors;
    }
  }

  lemma CleanRow(rules: Rules, kind: AddressKind, names: set<string>, number: nat, row: Row)
    requires RowErrors(rules, kind, names, number, row) == []
    ensures ReferenceKnown(kind, names, row)
  {
    assert |ReferenceErrors(kind, names, number, row)| == 0;
  }

  lemma {:induction false} FlatEmpty(fs: seq<seq<RowError>>, n: nat)
    requires n <= |fs| && Flat(fs, n) == []
    ensures forall i :: 0 <= i < n ==> fs[i] == []
  {
    if n > 0 {
      assert |Flat(fs, n - 1)| == 0 && |fs[n - 1]| == 0;
      FlatEmpty(fs, n - 1);
    }
  }

  lemma NothingFound(rules: Rules, kind: AddressKind, names: set<string>, rows: seq<Row>, i: nat)
    requires i < |rows| && AllErrors(rules, kind, names, rows) == []
    ensures RowErrors(rules, kind, names, i + 2, rows[i]) == []
  {
    hide RowErrors, Flat;
    FlatEmpty(Findings(rules, kind, names, rows), |rows|);
    assert Findings(rules, kind, names, rows)[i] == [];
  }

  /** Nothing wrong means every reference of an install-at row is known. */
  lemma CleanReferences(rules: Rules, kind: AddressKind, names: set<string>, rows: seq<Row>)
    requires AllErrors(rules, kind, names, rows) == []
    ensures forall i :: 0 <= i < |rows| ==> ReferenceKnown(kind, names, rows[i])
  {
    forall i | 0 <= i < |rows|
      ensures ReferenceKnown(kind, names, rows[i])
    {
      NothingFound(rules, kind, names, rows, i);
      CleanRow(rules, kind, names, i + 2, rows[i]);
    }
  }

  predicate ReferenceKnown(kind: AddressKind, names: set<string>, row: Row) {
    kind == InstallAt && Field(row, REFERENCE) != "" ==> Field(row, REFERENCE) in names
  }

  // ---- The commit ----

  const FIELD_KEYS: seq<string> := ["company_name", "contact_person", "phone", "email", "address_line_1", "address_line_2",
    "city", "state", "pin_code", "country", "landmark", "district", "fax", "website", "gstin", "pan", "cin"]

  /** Which saves the store takes: single records, and the commit of a chunk by the position of its first row. */
  datatype Saves = Saves(accepts: Address -> bool, commits: nat -> bool)

  /** The values of the first n address fields that are filled in. */
  function DataOf(row: Row, keys: seq<string>, n: nat): Row
    requires n <= |keys|
  {
    if n == 0 then map[]
    else if Field(row, keys[n - 1]) != "" then DataOf(row, keys, n - 1)[keys[n - 1] := Field(row, keys[n - 1])]
    else DataOf(row, keys, n - 1)
  }

  method CollectData(row: Row, keys: seq<string>) returns (data: Row)
    ensures data == DataOf(row, keys, |keys|)
  {
    data := map[];
    for i := 0 to |keys|
      invariant data == DataOf(row, keys, i)
    {
      var value := Field(row, keys[i]);
      if value != "" {
        data := data[keys[i] := value];
      }
    }
  }

  function ParentOf(kind: AddressKind, row: Row, lookup: map<string, Id>): Id {
    var ref := Field(row, REFERENCE);
    if kind == InstallAt && ref != "" && ref in lookup then lookup[ref] else 0
  }

  function RecordOf(project: Id, kind: AddressKind, row: Row, lookup: map<string, Id>): Address {
    Address(project, kind, DataOf(row, FIELD_KEYS, |FIELD_KEYS|), ParentOf(kind, row, lookup))
  }

  datatype Import = Import(project: Id, kind: AddressKind, rows: seq<Row>, lookup: map<string, Id>, saves: Saves) {
    function Record(i: nat): Address
      requires i < |rows|
    {
      RecordOf(project, kind, rows[i], lookup)
    }

    predicate Insertable(i: nat)
      requires i < |rows|
    {
      ReferenceKnown(kind, lookup.Keys, rows[i]) && saves.accepts(Record(i))
    }

    /** Chunk k runs from row Start(k) up to row End(k). */
    function Start(k: nat): nat {
      if CHUNK * k < |rows| then CHUNK * k else |rows|
    }

    function Chunks(): nat {
      (|rows| + CHUNK - 1) / CHUNK
    }

    /** All rows of chunk k can be inserted, and the transaction commits. */
    predicate ChunkClean(k: nat) {
      saves.commits(Start(k)) && forall i :: Start(k) <= i < Start(k + 1) ==> Insertable(i)
    }

    function Records(lo: nat, hi: nat): (records: seq<Address>)
      requires lo <= hi <= |rows|
      ensures |records| == hi - lo && forall j :: 0 <= j < hi - lo ==> records[j] == Record(lo + j)
    {
      seq(hi - lo, j requires 0 <= j < hi - lo => Record(lo + j))
    }

    /** The records of the clean ones among the first k chunks. */
    function Stored(k: nat): seq<Address> {
      if k == 0 then [] else
        Stored(k - 1) + if ChunkClean(k - 1) then Records(Start(k - 1), Start(k)) else []
    }
  }

  ghost predicate AllKnown(im: Import) {
    forall i :: 0 <= i < |im.rows| ==> ReferenceKnown(im.kind, im.lookup.Keys, im.rows[i])
  }

  datatype ImportResult = ImportResult(total: nat, imported: nat, failed: nat, errors: seq<RowError>, rolledBack: bool)

  /** e names the first row of chunk k that cannot be inserted, or the first row of all when only the commit fails. */
  ghost predicate FirstFault(im: Import, k: nat, e: RowError) {
    var lo, hi := im.Start(k), im.Start(k + 1);
    && lo + 2 <= e.row < hi + 2
    && if forall i :: lo <= i < hi ==> im.Insertable(i) then !im.saves.commits(lo) && e == RowError(lo + 2, "")
       else
         && !im.Insertable(e.row - 2) && (forall i :: lo <= i < e.row - 2 ==> im.Insertable(i))
         && e.field == if ReferenceKnown(im.kind, im.lookup.Keys, im.rows[e.row - 2]) then "" else REFERENCE
  }

  predicate NoReferenceErrors(errors: seq<RowError>) {
    forall e :: e in errors ==> e.field != REFERENCE
  }

  /** One row of a chunk: a record, or an error. */
  method InsertRow(book: AddressBook, im: Import, i: nat) returns (errors: seq<RowError>)
    requires i < |im.rows|
    modifies book
    ensures errors == [] <==> im.Insertable(i)
    ensures errors == [] ==> book.addresses == old(book.addresses).Insert(im.Record(i))
    ensures errors != [] ==> errors == [RowError(i + 2, if ReferenceKnown(im.kind, im.lookup.Keys, im.rows[i]) then "" else REFERENCE)]
    ensures ReferenceKnown(im.kind, im.lookup.Keys, im.rows[i]) ==> NoReferenceErrors(errors)
  {
    var row := im.rows[i];
    var data := CollectData(row, FIELD_KEYS);
    var parent: Id := 0;
    var ref := Field(row, REFERENCE);
    if im.kind == InstallAt && ref != "" {
      if ref !in im.lookup {
        return [RowError(i + 2, REFERENCE)];
      }
      parent := im.lookup[ref];
    }
    var record := Address(im.project, im.kind, data, parent);
    if !im.saves.accepts(record) {
      return [RowError(i + 2, "")];
    }
    book.addresses := book.addresses.Insert(record);
    return [];
  }

  /** The records of rows lo up to i of im are in the table after those of before. */
  ghost predicate RowsInserted(im: Import, lo: nat, i: nat, before: Table<Address>, after: Table<Address>) {
    lo <= i <= |im.rows| && after == before.InsertAll(im.Records(lo, i)) && forall j :: lo <= j < i ==> im.Insertable(j)
  }

  lemma NextInsertedRow(im: Import, lo: nat, i: nat, before: Table<Address>, after: Table<Address>)
    requires i < |im.rows| && RowsInserted(im, lo, i, before, after) && im.Insertable(i)
    ensures RowsInserted(im, lo, i + 1, before, after.Insert(im.Record(i)))
  {
    hide Table.InsertAll, Import.Insertable, RecordOf;
    assert im.Records(lo, i + 1) == im.Records(lo, i) + [im.Record(i)];
    NextInserted(before, after, im.Records(lo, i), im.Record(i), im.Records(lo, i + 1));
  }

  /** insertChunk: all rows of chunk k, or none and one error. */
  method InsertChunk(book: AddressBook, im: Import, k: nat) returns (errors: seq<RowError>)
    requires im.Start(k) < |im.rows|
    modifies book
    ensures errors == [] <==> im.ChunkClean(k)
    ensures errors == [] ==> book.addresses == old(book.addresses).InsertAll(im.Records(im.Start(k), im.Start(k + 1)))
    ensures errors != [] ==> book.addresses == old(book.addresses) && |errors| == 1 && FirstFault(im, k, errors[0])
    ensures AllKnown(im) ==> NoReferenceErrors(errors)
  {
    var lo, hi, before := im.Start(k), im.Start(k + 1), book.addresses;
    for i := lo to hi
      invariant RowsInserted(im, lo, i, before, book.addresses)
    {
      ghost var after := book.addresses;
      errors := InsertRow(book, im, i);
      if |errors| > 0 {
        book.addresses := before;
        return;
      }
      NextInsertedRow(im, lo, i, before, after);
    }
    if !im.saves.commits(lo) {
      book.addresses := before;
      return [RowError(lo + 2, "")];
    }
    return [];
  }

  // ---- What the stored addresses hold ----

  /** Exactly the filled-in address fields of a row, with their values. */
  ghost predicate HoldsFields(data: Row, row: Row) {
    && (forall key :: key in data <==> key in FIELD_KEYS && key in row && row[key] != "")
    && forall key :: key in data ==> data[key] == row[key]
  }

  /** Address i is the latest ship-to address of a company in a project. */
  ghost predicate IsShipToOf(addresses: Table<Address>, project: Id, company: string, i: Id) {
    && i in addresses.rows && addresses.rows[i].project == project && addresses.rows[i].kind == ShipTo
    && Field(addresses.rows[i].data, COMPANY) == company
    && forall j :: j in ShipTos(addresses, project) && Field(addresses.rows[j].data, COMPANY) == company ==> j <= i
  }

  /** Address a is what importing a row makes: the fields of the row, and for an install-at row with a reference
      the ship-to address of that name as its parent. */
  ghost predicate ImportedFrom(before: Table<Address>, project: Id, kind: AddressKind, row: Row, a: Address) {
    && a.project == project && a.kind == kind && HoldsFields(a.data, row)
    && if kind == InstallAt && REFERENCE in row && row[REFERENCE] != ""
       then IsShipToOf(before, project, row[REFERENCE], a.parent) else a.parent == 0
  }

  lemma {:induction false} DataHolds(row: Row, keys: seq<string>, n: nat)
    requires n <= |keys|
    ensures var data := DataOf(row, keys, n);
      && (forall key :: key in data <==> key in keys[..n] && key in row && row[key] != "")
      && forall key :: key in data ==> data[key] == row[key]
  {
    if n > 0 {
      DataHolds(row, keys, n - 1);
      assert keys[..n] == keys[..n - 1] + [keys[n - 1]];
    }
  }

  lemma RecordImported(im: Import, before: Table<Address>, i: nat)
    requires LooksUp(before, im.project, im.lookup) && AllKnown(im) && i < |im.rows|
    ensures ImportedFrom(before, im.project, im.kind, im.rows[i], im.Record(i))
  {
    DataHolds(im.rows[i], FIELD_KEYS, |FIELD_KEYS|);
    assert FIELD_KEYS[..|FIELD_KEYS|] == FIELD_KEYS;
    assert ReferenceKnown(im.kind, im.lookup.Keys, im.rows[i]);
  }

  /** The rows of the clean ones among the first k chunks, in order. */
  ghost function StoredRows(im: Import, k: nat): seq<nat> {
    if k == 0 then [] else
      StoredRows(im, k - 1) + if im.ChunkClean(k - 1) then IdsFrom(im.Start(k - 1), im.Start(k) - im.Start(k - 1)) else []
  }

  lemma {:induction false} StoredRecords(im: Import, k: nat)
    ensures |StoredRows(im, k)| == |im.Stored(k)|
    ensures forall j :: 0 <= j < |StoredRows(im, k)| ==> StoredRows(im, k)[j] < |im.rows| && im.Stored(k)[j] == im.Record(StoredRows(im, k)[j])
  {
    if k > 0 {
      StoredRecords(im, k - 1);
    }
  }

  /** The rows in rs were stored, in this order, after the addresses that were there before. */
  ghost predicate RowsStored(before: Table<Address>, after: Table<Address>, project: Id, kind: AddressKind, rows: seq<Row>, rs: seq<nat>) {
    && after.next == before.next + |rs|
    && (forall a :: a in after.rows <==> a in before.rows || before.next <= a < after.next)
    && (forall a :: a in before.rows ==> after.rows[a] == before.rows[a])
    && forall j :: 0 <= j < |rs| ==>
         rs[j] < |rows| && before.next + j in after.rows && ImportedFrom(before, project, kind, rows[rs[j]], after.rows[before.next + j])
  }

  lemma RecordsPlaced(before: Table<Address>, project: Id, kind: AddressKind, rows: seq<Row>, rs: seq<nat>, records: seq<Address>)
    requires before.Valid() && |rs| == |records|
    requires forall j :: 0 <= j < |rs| ==> rs[j] < |rows| && ImportedFrom(before, project, kind, rows[rs[j]], records[j])
    ensures RowsStored(before, before.InsertAll(records), project, kind, rows, rs)
  {
    hide ImportedFrom, Table.InsertAll, Table.Valid;
    RecordsKeepRows(before, records);
    forall j | 0 <= j < |rs|
      ensures before.next + j in before.InsertAll(records).rows && before.InsertAll(records).rows[before.next + j] == records[j]
    {
      InsertAllAt(before, records, j);
    }
  }

  lemma RecordsKeepRows(before: Table<Address>, records: seq<Address>)
    requires before.Valid()
    ensures var after := before.InsertAll(records);
      && (forall a :: a in after.rows <==> a in before.rows || before.next <= a < after.next)
      && forall a :: a in before.rows ==> after.rows[a] == before.rows[a]
  {
    hide Table.InsertAll;
    Inserted(before, records);
  }

  lemma StoredAreImported(im: Import, before: Table<Address>, after: Table<Address>, k: nat)
    requires before.Valid() && LooksUp(before, im.project, im.lookup) && AllKnown(im) && after == before.InsertAll(im.Stored(k))
    ensures RowsStored(before, after, im.project, im.kind, im.rows, StoredRows(im, k))
  {
    hide ImportedFrom, LooksUp, AllKnown, Table.InsertAll, StoredRows, RowsStored, Import.Stored, Import.Record;
    StoredRecords(im, k);
    var rs := StoredRows(im, k);
    forall j | 0 <= j < |rs|
      ensures rs[j] < |im.rows| && ImportedFrom(before, im.project, im.kind, im.rows[rs[j]], im.Stored(k)[j])
    {
      RecordImported(im, before, rs[j]);
    }
    RecordsPlaced(before, im.project, im.kind, im.rows, rs, im.Stored(k));
  }

  ghost predicate Increasing(rs: seq<nat>) {
    forall i, j :: 0 <= i < j < |rs| ==> rs[i] < rs[j]
  }

  lemma RowsAppended(rs: seq<nat>, lo: nat, hi: nat)
    requires Increasing(rs) && lo <= hi && forall i :: i in rs ==> i < lo
    ensures Increasing(rs + IdsFrom(lo, hi - lo))
    ensures forall i :: i in rs + IdsFrom(lo, hi - lo) <==> i in rs || lo <= i < hi
  {
    var more := IdsFrom(lo, hi - lo);
    assert forall i :: 0 <= i < |rs| ==> rs[i] in rs;
    forall i | lo <= i < hi
      ensures i in rs + more
    {
      assert more[i - lo] == i && (rs + more)[|rs| + (i - lo)] == i;
    }
  }

  lemma ChunkOfRow(im: Import, k: nat, i: nat)
    requires im.Start(k) <= i < im.Start(k + 1)
    ensures i / CHUNK == k
  {
  }

  /** A row is stored exactly when it lies in a clean chunk, and rows keep their order. */
  lemma {:induction false} StoredRowsExactly(im: Import, k: nat)
    ensures Increasing(StoredRows(im, k))
    ensures forall i: nat :: i in StoredRows(im, k) <==> i < im.Start(k) && im.ChunkClean(i / CHUNK)
  {
    hide Increasing, Import.ChunkClean, IdsFrom;
    if k == 0 {
      NothingIncreases();
    } else {
      StoredRowsExactly(im, k - 1);
      var lo, hi := im.Start(k - 1), im.Start(k);
      if im.ChunkClean(k - 1) {
        RowsAppended(StoredRows(im, k - 1), lo, hi);
      } else {
        assert StoredRows(im, k) == StoredRows(im, k - 1);
      }
      forall i: nat
        ensures i in StoredRows(im, k) <==> i < hi && im.ChunkClean(i / CHUNK)
      {
        if lo <= i < hi {
          ChunkOfRow(im, k - 1, i);
        }
      }
    }
  }

  lemma NothingIncreases()
    ensures Increasing([])
  {
  }

  /** The chunks among the first k that are not clean, in order. */
  ghost function FailedChunks(im: Import, k: nat): seq<nat> {
    if k == 0 then [] else FailedChunks(im, k - 1) + if im.ChunkClean(k - 1) then [] else [k - 1]
  }

  /** One error for each failed chunk: its first fault. */
  ghost predicate ErrorsOf(im: Import, failed: seq<nat>, errors: seq<RowError>) {
    |errors| == |failed| && forall i :: 0 <= i < |failed| ==> FirstFault(im, failed[i], errors[i])
  }

  /** What a commit of the first k chunks leaves. */
  ghost predicate Committed(im: Import, k: nat, before: Table<Address>, after: Table<Address>, r: ImportResult) {
    && after == before.InsertAll(im.Stored(k))
    && r.total == |im.rows| && r.imported == |im.Stored(k)| && r.imported + r.failed == im.Start(k)
    && ErrorsOf(im, FailedChunks(im, k), r.errors) && (r.rolledBack <==> r.errors != [])
  }

  /** The result after a chunk of some size. */
  function WithChunk(r: ImportResult, errors: seq<RowError>, size: nat): ImportResult {
    if |errors| > 0 then r.(errors := r.errors + errors, failed := r.failed + size, rolledBack := true)
    else r.(imported := r.imported + size)
  }

  lemma NextStored(im: Import, k: nat, before: Table<Address>, after: Table<Address>, later: Table<Address>)
    requires after == before.InsertAll(im.Stored(k))
    requires later == if im.ChunkClean(k) then after.InsertAll(im.Records(im.Start(k), im.Start(k + 1))) else after
    ensures later == before.InsertAll(im.Stored(k + 1))
    ensures |im.Stored(k + 1)| == |im.Stored(k)| + if im.ChunkClean(k) then im.Start(k + 1) - im.Start(k) else 0
  {
    var records := im.Records(im.Start(k), im.Start(k + 1));
    if im.ChunkClean(k) {
      NextInsertedAll(before, after, im.Stored(k), records, im.Stored(k + 1));
    } else {
      assert im.Stored(k) + [] == im.Stored(k);
    }
  }

  lemma NextCommitted(im: Import, k: nat, before: Table<Address>, after: Table<Address>, r: ImportResult,
                      later: Table<Address>, errors: seq<RowError>)
    requires Committed(im, k, before, after, r)
    requires errors == [] <==> im.ChunkClean(k)
    requires later == if im.ChunkClean(k) then after.InsertAll(im.Records(im.Start(k), im.Start(k + 1))) else after
    requires errors != [] ==> |errors| == 1 && FirstFault(im, k, errors[0])
    ensures Committed(im, k + 1, before, later, WithChunk(r, errors, im.Start(k + 1) - im.Start(k)))
  {
    NextStored(im, k, before, after, later);
    NextErrors(im, k, r.errors, errors);
  }

  lemma NextErrors(im: Import, k: nat, errors: seq<RowError>, chunk: seq<RowError>)
    requires ErrorsOf(im, FailedChunks(im, k), errors)
    requires chunk == [] <==> im.ChunkClean(k)
    requires chunk != [] ==> |chunk| == 1 && FirstFault(im, k, chunk[0])
    ensures ErrorsOf(im, FailedChunks(im, k + 1), errors + chunk)
    ensures chunk == [] ==> ErrorsOf(im, FailedChunks(im, k + 1), errors)
  {
    var failed := FailedChunks(im, k);
    if chunk == [] {
      assert failed + [] == failed && errors + chunk == errors;
    } else {
      assert chunk == [chunk[0]];
      OneMoreError(im, failed, errors, k, chunk[0]);
    }
  }

  lemma OneMoreError(im: Import, failed: seq<nat>, errors: seq<RowError>, k: nat, e: RowError)
    requires ErrorsOf(im, failed, errors) && FirstFault(im, k, e)
    ensures ErrorsOf(im, failed + [k], errors + [e])
  {
    forall i | 0 <= i < |failed| + 1
      ensures FirstFault(im, (failed + [k])[i], (errors + [e])[i])
    {
      if i < |failed| {
        assert FirstFault(im, failed[i], errors[i]);
      }
    }
  }

  lemma AllChunks(im: Import)
    ensures im.Start(im.Chunks()) == |im.rows| && forall k :: 0 <= k < im.Chunks() ==> im.Start(k) < |im.rows|
  {
  }

  /** One more chunk. */
  method InsertNextChunk(book: AddressBook, im: Import, k: nat, r: ImportResult, ghost before: Table<Address>) returns (more: ImportResult)
    requires im.Start(k) < |im.rows| && Committed(im, k, before, book.addresses, r)
    modifies book
    ensures Committed(im, k + 1, before, book.addresses, more)
    ensures AllKnown(im) && NoReferenceErrors(r.errors) ==> NoReferenceErrors(more.errors)
  {
    ghost var after := book.addresses;
    var errors := InsertChunk(book, im, k);
    NextCommitted(im, k, before, after, r, book.addresses, errors);
    more := WithChunk(r, errors, im.Start(k + 1) - im.Start(k));
  }

  lemma NoneCommitted(im: Import, before: Table<Address>)
    ensures Committed(im, 0, before, before, ImportResult(|im.rows|, 0, 0, [], false)) && NoReferenceErrors([])
  {
  }

  lemma AllCommitted(im: Import, before: Table<Address>, after: Table<Address>, r: ImportResult)
    requires Committed(im, im.Chunks(), before, after, r)
    ensures r.imported + r.failed == r.total
  {
    AllChunks(im);
  }

  /** The chunk loop. */
  method InsertChunks(book: AddressBook, im: Import) returns (r: ImportResult)
    modifies book
    ensures Committed(im, im.Chunks(), old(book.addresses), book.addresses, r) && r.imported + r.failed == r.total
    ensures AllKnown(im) ==> NoReferenceErrors(r.errors)
  {
    hide *;
    r := ImportResult(|im.rows|, 0, 0, [], false);
    ghost var before := book.addresses;
    AllChunks(im);
    NoneCommitted(im, before);
    for k := 0 to im.Chunks()
      invariant Committed(im, k, before, book.addresses, r)
      invariant AllKnown(im) ==> NoReferenceErrors(r.errors)
    {
      r := InsertNextChunk(book, im, k, r, before);
    }
    AllCommitted(im, before, book.addresses, r);
  }

  /** The rows of the clean chunks, and only those, were stored in their order. */
  ghost predicate CleanRowsStored(im: Import, before: Table<Address>, after: Table<Address>) {
    var stored := StoredRows(im, im.Chunks());
    && (before.Valid() ==> RowsStored(before, after, im.project, im.kind, im.rows, stored))
    && Increasing(stored) && forall i: nat :: i in stored <==> i < |im.rows| && ChunkStorable(im, 100 * (i / 100))
  }

  /** The hundred rows from lo on, or as many as there are, can be saved, and their transaction commits. */
  ghost predicate ChunkStorable(im: Import, lo: nat) {
    && im.saves.commits(lo)
    && forall j :: lo <= j < lo + 100 && j < |im.rows| ==>
         ReferenceKnown(im.kind, im.lookup.Keys, im.rows[j]) && im.saves.accepts(im.Record(j))
  }

  lemma CleanIsStorable(im: Import, k: nat)
    requires im.Start(k) < |im.rows|
    ensures im.ChunkClean(k) <==> ChunkStorable(im, 100 * k)
  {
    var lo, hi := im.Start(k), im.Start(k + 1);
    assert lo == 100 * k && (hi == lo + 100 || hi == |im.rows| <= lo + 100);
    forall j | lo <= j < hi
      ensures im.Insertable(j) <==> ReferenceKnown(im.kind, im.lookup.Keys, im.rows[j]) && im.saves.accepts(im.Record(j))
    {
    }
    if im.ChunkClean(k) {
      forall j | lo <= j < lo + 100 && j < |im.rows|
        ensures ReferenceKnown(im.kind, im.lookup.Keys, im.rows[j]) && im.saves.accepts(im.Record(j))
      {
        assert im.Insertable(j);
      }
    }
  }

  lemma CommittedRows(im: Import, before: Table<Address>, after: Table<Address>, r: ImportResult)
    requires LooksUp(before, im.project, im.lookup) && AllKnown(im) && Committed(im, im.Chunks(), before, after, r)
    ensures CleanRowsStored(im, before, after)
  {
    hide LooksUp, AllKnown, RowsStored, Increasing, Import.ChunkClean, ChunkStorable;
    AllChunks(im);
    StoredRowsExactly(im, im.Chunks());
    forall i: nat | i < |im.rows|
      ensures im.ChunkClean(i / CHUNK) <==> ChunkStorable(im, 100 * (i / 100))
    {
      CleanIsStorable(im, i / CHUNK);
    }
    if before.Valid() {
      StoredAreImported(im, before, after, im.Chunks());
    }
  }

  /** CommitAddressImport: a second validation rejects everything or nothing; after a clean one the rows of the clean
      chunks are stored, every other chunk reports one error inside it, and no reference is ever found missing. */
  method CommitAddressImport(book: AddressBook, project: Id, kind: AddressKind, rules: Rules, saves: Saves, rows: seq<Row>)
      returns (r: ImportResult, ghost im: Import)
    modifies book
    ensures im.rows == rows && im.project == project && im.kind == kind && im.saves == saves
    ensures im.lookup.Keys == ShipToNames(old(book.addresses), project)
    ensures var errors := AllErrors(rules, kind, ShipToNames(old(book.addresses), project), rows);
      if errors != [] then
        && r == ImportResult(|rows|, 0, r.failed, errors, true) && 0 < r.failed <= |rows|
        && r.failed == BadRows(Findings(rules, kind, ShipToNames(old(book.addresses), project), rows), |rows|)
        && book.addresses == old(book.addresses)
      else
        && Committed(im, im.Chunks(), old(book.addresses), book.addresses, r)
        && CleanRowsStored(im, old(book.addresses), book.addresses)
        && r.imported + r.failed == r.total == |rows|
        && NoReferenceErrors(r.errors)
  {
    var names := book.LoadShipToCompanyNames(project);
    var errors := RevalidateRows(rules, kind, names, rows);
    var lookup := book.BuildShipToLookup(project);
    im := Import(project, kind, rows, lookup, saves);
    if |errors| > 0 {
      var numbers := set e | e in errors :: e.row;
      assert errors[0].row in numbers;
      FindingsNumbered(rules, kind, names, rows);
      ErrorRowsCounted(Findings(rules, kind, names, rows), |rows|);
      r := ImportResult(|rows|, 0, |numbers|, errors, true);
      return;
    }
    CleanReferences(rules, kind, names, rows);
    r := InsertChunks(book, Import(project, kind, rows, lookup, saves));
    CommittedRows(im, old(book.addresses), book.addresses, r);
  }

  /** Without rejected saves everything is stored. */
  lemma {:induction false} AllStored(im: Import, k: nat)
    requires forall j :: 0 <= j < k ==> im.ChunkClean(j)
    ensures im.Stored(k) == im.Records(0, im.Start(k))
  {
    hide Import.ChunkClean, Import.Record;
    if k > 0 {
      AllStored(im, k - 1);
    }
  }
}
