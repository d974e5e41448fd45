/** How document numbers are written, and how they are read back. */
module DocNumbers {
  import opened Numbering
  import opened Strings
  import R = Records

  function TypeCode(kind: SeqType): string {
    match kind
    case Po => "PO"
    case Tdc => "TDC"
    case Odc => "ODC"
    case Stdc => "STDC"
  }

  /** The numbering fields of a project; blank or zero means unset. */
  datatype Config = Config(format: string, sep: string, prefix: string, padding: nat, projectRef: string)

  function Tag(name: string): string {
    "{" + name + "}"
  }

  /** {PREFIX}{SEP}{TYPE}{SEP}{FY}{SEP}{SEQ} */
  const DEFAULT_FORMAT :=
    Tag("PREFIX") + (Tag("SEP") + (Tag("TYPE") + (Tag("SEP") + (Tag("FY") + (Tag("SEP") + Tag("SEQ"))))))

  function Fill(template: string, name: string, text: string): string {
    ReplaceAll(template, Tag(name), text)
  }

  function FormatDocNumber(format: string, sep: string, prefix: string, kind: SeqType, year: string,
                           num: nat, padding: nat, projectRef: string): string
  {
    var r := Fill(format, "PREFIX", prefix);
    var r := Fill(r, "SEP", sep);
    var r := Fill(r, "TYPE", TypeCode(kind));
    var r := Fill(r, "FY", year);
    var r := Fill(r, "SEQ", Padded(num, padding));
    Fill(r, "PROJECT_REF", projectRef)
  }

  function Separator(c: Config): (sep: string)
    ensures sep != ""
  {
    if c.sep == "" then "-" else c.sep
  }

  function Padding(c: Config): nat {
    if c.padding == 0 then 3 else c.padding
  }

  function Format(c: Config): string {
    if c.format == "" then DEFAULT_FORMAT else c.format
  }

  /** The string NextDocNumber returns for a drawn number. */
  function Rendered(c: Config, no: DocNo): string {
    FormatDocNumber(Format(c), Separator(c), c.prefix,
                    no.key.kind, no.key.year, no.num, Padding(c), c.projectRef)
  }

  // ---- Templates as lists of pieces ----

  datatype Template = End | Text(text: string, rest: Template) | Token(name: string, rest: Template)

  predicate BraceFree(s: string) {
    '{' !in s && '}' !in s
  }

  function Written(t: Template): string {
    match t
    case End => ""
    case Text(s, rest) => s + Written(rest)
    case Token(n, rest) => Tag(n) + Written(rest)
  }

  predicate Clean(t: Template) {
    match t
    case End => true
    case Text(s, rest) => BraceFree(s) && Clean(rest)
    case Token(n, rest) => BraceFree(n) && Clean(rest)
  }

  function Substituted(t: Template, name: string, text: string): (r: Template)
    ensures Clean(t) && BraceFree(text) ==> Clean(r)
  {
    match t
    case End => End
    case Text(s, rest) => Text(s, Substituted(rest, name, text))
    case Token(n, rest) =>
      if n == name then Text(text, Substituted(rest, name, text)) else Token(n, Substituted(rest, name, text))
  }

  lemma OtherTagDiffers(name: string, other: string, rest: string)
    requires BraceFree(name) && BraceFree(other) && name != other
    ensures !StartsWith(Tag(other) + rest, Tag(name))
  {
    var s := Tag(other) + rest;
    if |other| < |name| {
      assert name[|other|] in name;
      assert s[|other| + 1] == '}' && Tag(name)[|other| + 1] == name[|other|];
      DiffersAt(s, Tag(name), |other| + 1);
    } else if |name| < |other| {
      assert other[|name|] in other;
      assert Tag(name)[|name| + 1] == '}' && s[|name| + 1] == other[|name|];
      DiffersAt(s, Tag(name), |name| + 1);
    } else {
      var i :| 0 <= i < |name| && name[i] != other[i];
      assert Tag(name)[i + 1] == name[i] && s[i + 1] == other[i];
      DiffersAt(s, Tag(name), i + 1);
    }
  }

  lemma OtherTagStays(name: string, other: string, rest: string, text: string)
    requires BraceFree(name) && BraceFree(other) && name != other
    ensures Fill(Tag(other) + rest, name, text) == Tag(other) + Fill(rest, name, text)
  {
    var tail := other + "}";
    OtherTagDiffers(name, other, rest);
    assert Tag(other) + rest == ['{'] + (tail + rest);
    assert (Tag(other) + rest)[1..] == tail + rest;
    ReplaceSkips(tail, rest, Tag(name), text);
    assert Tag(other) == ['{'] + tail;
  }

  /** Replacing a tag in a written template is substituting its token. */
  lemma {:induction false} FillIsSubstitution(t: Template, name: string, text: string)
    requires Clean(t) && BraceFree(name)
    ensures Fill(Written(t), name, text) == Written(Substituted(t, name, text))
  {
    match t
    case End =>
    case Text(s, rest) =>
      FillIsSubstitution(rest, name, text);
      ReplaceSkips(s, Written(rest), Tag(name), text);
    case Token(n, rest) =>
      FillIsSubstitution(rest, name, text);
      if n == name {
        ReplaceHits(Written(rest), Tag(name), text);
      } else {
        OtherTagStays(name, n, Written(rest), text);
      }
  }

  predicate Known(name: string) {
    name in {"PREFIX", "SEP", "TYPE", "FY", "SEQ", "PROJECT_REF"}
  }

  /** The values a template is filled with. */
  datatype Values = Values(prefix: string, sep: string, code: string, year: string, digits: string, projectRef: string) {
    predicate Plain() {
      && BraceFree(prefix) && BraceFree(sep) && BraceFree(code)
      && BraceFree(year) && BraceFree(digits)
    }

    function Of(name: string): string
      requires Known(name)
    {
      if name == "PREFIX" then prefix else if name == "SEP" then sep else if name == "TYPE" then code
      else if name == "FY" then year else if name == "SEQ" then digits else projectRef
    }
  }

  /** Every known token replaced by its value, in one pass. */
  function Filled(t: Template, v: Values): Template {
    match t
    case End => End
    case Text(s, rest) => Text(s, Filled(rest, v))
    case Token(n, rest) => if Known(n) then Text(v.Of(n), Filled(rest, v)) else Token(n, Filled(rest, v))
  }

  function SubstitutedAll(t: Template, v: Values): Template {
    var t := Substituted(Substituted(Substituted(t, "PREFIX", v.prefix), "SEP", v.sep), "TYPE", v.code);
    Substituted(Substituted(Substituted(t, "FY", v.year), "SEQ", v.digits), "PROJECT_REF", v.projectRef)
  }

  lemma {:induction false} SubstitutingIsFilling(t: Template, v: Values)
    ensures SubstitutedAll(t, v) == Filled(t, v)
  {
    match t
    case End =>
    case Text(s, rest) => SubstitutingIsFilling(rest, v);
    case Token(n, rest) => SubstitutingIsFilling(rest, v);
  }

  function ValuesOf(sep: string, prefix: string, kind: SeqType, year: string, num: nat, padding: nat, projectRef: string): Values {
    Values(prefix, sep, TypeCode(kind), year, Padded(num, padding), projectRef)
  }

  lemma FillsInOrder(t: Template, v: Values)
    requires Clean(t) && v.Plain()
    ensures var r := Fill(Fill(Fill(Written(t), "PREFIX", v.prefix), "SEP", v.sep), "TYPE", v.code);
      Fill(Fill(Fill(r, "FY", v.year), "SEQ", v.digits), "PROJECT_REF", v.projectRef) == Written(SubstitutedAll(t, v))
  {
    hide Fill, Written, Substituted, Tag;
    var t1 := Substituted(t, "PREFIX", v.prefix);
    var t2 := Substituted(t1, "SEP", v.sep);
    var t3 := Substituted(t2, "TYPE", v.code);
    var t4 := Substituted(t3, "FY", v.year);
    var t5 := Substituted(t4, "SEQ", v.digits);
    FillIsSubstitution(t, "PREFIX", v.prefix);
    FillIsSubstitution(t1, "SEP", v.sep);
    FillIsSubstitution(t2, "TYPE", v.code);
    FillIsSubstitution(t3, "FY", v.year);
    FillIsSubstitution(t4, "SEQ", v.digits);
    FillIsSubstitution(t5, "PROJECT_REF", v.projectRef);
  }

  /** Whatever the template, the six replacements fill its tokens in one pass when no value contains a brace. */
  lemma FormatFills(t: Template, sep: string, prefix: string, kind: SeqType, year: string, num: nat, padding: nat, projectRef: string)
    requires Clean(t) && BraceFree(prefix) && BraceFree(sep) && BraceFree(year)
    ensures FormatDocNumber(Written(t), sep, prefix, kind, year, num, padding, projectRef)
            == Written(Filled(t, ValuesOf(sep, prefix, kind, year, num, padding, projectRef)))
  {
    var v := ValuesOf(sep, prefix, kind, year, num, padding, projectRef);
    assert BraceFree(v.digits) && BraceFree(v.code);
    FillsInOrder(t, v);
    SubstitutingIsFilling(t, v);
  }

  // ---- The order of the replacements ----

  lemma {:induction false} NoToken(t: Template, name: string, text: string)
    requires Times(t, name) == 0
    ensures Substituted(t, name, text) == t
  {
    match t
    case End =>
    case Text(_, rest) => NoToken(rest, name, text);
    case Token(_, rest) => NoToken(rest, name, text);
  }

  lemma FillAbsent(t: Template, name: string, text: string)
    requires Clean(t) && BraceFree(name) && Times(t, name) == 0
    ensures Fill(Written(t), name, text) == Written(t)
  {
    FillIsSubstitution(t, name, text);
    NoToken(t, name, text);
  }

  lemma FillTag(name: string, text: string)
    ensures Fill(Tag(name), name, text) == text
  {
    ReplaceHits("", Tag(name), text);
    assert Tag(name) + "" == Tag(name) && text + "" == text;
  }

  /** Tags inside the prefix are filled like those of the template, as the prefix is put in first. */
  lemma PrefixIsTemplate(t: Template, sep: string, kind: SeqType, year: string, num: nat, padding: nat, projectRef: string)
    requires Clean(t) && Times(t, "PREFIX") == 0
    ensures FormatDocNumber(Tag("PREFIX"), sep, Written(t), kind, year, num, padding, projectRef)
            == FormatDocNumber(Written(t), sep, "", kind, year, num, padding, projectRef)
  {
    hide Fill, Written;
    FillTag("PREFIX", Written(t));
    FillAbsent(t, "PREFIX", "");
  }

  /** So are tags inside the separator, except that of the prefix. */
  lemma SeparatorIsTemplate(t: Template, prefix: string, kind: SeqType, year: string, num: nat, padding: nat, projectRef: string)
    requires Clean(t) && Times(t, "PREFIX") == 0 && Times(t, "SEP") == 0
    ensures FormatDocNumber(Tag("SEP"), Written(t), prefix, kind, year, num, padding, projectRef)
            == FormatDocNumber(Written(t), "", prefix, kind, year, num, padding, projectRef)
  {
    TagWritten("SEP");
    hide Fill, Written;
    FillAbsent(Token("SEP", End), "PREFIX", prefix);
    FillTag("SEP", Written(t));
    FillAbsent(t, "PREFIX", prefix);
    FillAbsent(t, "SEP", "");
  }

  lemma TagWritten(name: string)
    requires BraceFree(name)
    ensures Written(Token(name, End)) == Tag(name) && Clean(Token(name, End))
    ensures forall other :: other != name ==> Times(Token(name, End), other) == 0
  {
    assert Tag(name) + "" == Tag(name);
  }

  /** The project reference is put in last, so whatever it contains stays as it is. */
  lemma ReferenceIsVerbatim(sep: string, prefix: string, kind: SeqType, year: string, num: nat, padding: nat, projectRef: string)
    ensures FormatDocNumber(Tag("PROJECT_REF"), sep, prefix, kind, year, num, padding, projectRef) == projectRef
  {
    TagWritten("PROJECT_REF");
    hide Fill, Written;
    var t := Token("PROJECT_REF", End);
    FillAbsent(t, "PREFIX", prefix);
    FillAbsent(t, "SEP", sep);
    FillAbsent(t, "TYPE", TypeCode(kind));
    FillAbsent(t, "FY", year);
    FillAbsent(t, "SEQ", Padded(num, padding));
    FillTag("PROJECT_REF", projectRef);
  }

  // ---- The default template ----

  /** Three tokens, the separator before each but the first, then one more separator and token. */
  function DefaultTemplate(): Template {
    Token("PREFIX", Token("SEP", Token("TYPE", Token("SEP", Token("FY", Token("SEP", Token("SEQ", End)))))))
  }

  lemma DefaultWritten()
    ensures Written(DefaultTemplate()) == DEFAULT_FORMAT && Clean(DefaultTemplate())
  {
    var number := Token("SEQ", End);
    var year := Token("FY", Token("SEP", number));
    assert Tag("SEQ") + "" == Tag("SEQ");
    assert Written(number) == Tag("SEQ") && Clean(number);
    assert Written(year) == Tag("FY") + (Tag("SEP") + Tag("SEQ")) && Clean(year);
    assert Written(Token("TYPE", Token("SEP", year))) == Tag("TYPE") + (Tag("SEP") + Written(year));
  }

  /** With the default template: prefix, type, year and padded number, joined by the separator. */
  lemma DefaultForm(sep: string, prefix: string, kind: SeqType, year: string, num: nat, padding: nat, projectRef: string)
    requires BraceFree(prefix) && BraceFree(sep) && BraceFree(year)
    ensures FormatDocNumber(DEFAULT_FORMAT, sep, prefix, kind, year, num, padding, projectRef)
            == prefix + (sep + (TypeCode(kind) + (sep + (year + (sep + Padded(num, padding))))))
  {
    var v := ValuesOf(sep, prefix, kind, year, num, padding, projectRef);
    DefaultWritten();
    FormatFills(DefaultTemplate(), sep, prefix, kind, year, num, padding, projectRef);
    DefaultFilled(v);
  }

  lemma DefaultFilled(v: Values)
    ensures Written(Filled(DefaultTemplate(), v)) == v.prefix + (v.sep + (v.code + (v.sep + (v.year + (v.sep + v.digits)))))
  {
    var end := Token("SEQ", End);
    var last := Token("SEP", end);
    assert Filled(End, v) == End;
    assert Written(Filled(end, v)) == v.digits by {
      assert v.digits + "" == v.digits;
    }
    var year := Token("SEP", Token("FY", last));
    assert Written(Filled(last, v)) == v.sep + v.digits;
    assert Written(Filled(year, v)) == v.sep + (v.year + (v.sep + v.digits));
    assert Written(Filled(Token("SEP", Token("TYPE", year)), v)) == v.sep + (v.code + (v.sep + (v.year + (v.sep + v.digits))));
  }

  lemma ChallanExamples()
    ensures FormatDocNumber(DEFAULT_FORMAT, "-", "ABC", Tdc, "2526", 1, 3, "") == "ABC-TDC-2526-001"
    ensures FormatDocNumber(DEFAULT_FORMAT, "-", "ABC", Odc, "2526", 5, 3, "") == "ABC-ODC-2526-005"
  {
    hide FormatDocNumber, Padded;
    DefaultForm("-", "ABC", Tdc, "2526", 1, 3, "");
    DefaultForm("-", "ABC", Odc, "2526", 5, 3, "");
    PaddedExamples();
  }

  lemma OtherExamples()
    ensures FormatDocNumber(DEFAULT_FORMAT, "-", "ABC", Stdc, "2526", 1, 4, "") == "ABC-STDC-2526-0001"
    ensures FormatDocNumber(DEFAULT_FORMAT, "/", "XYZ", Po, "2526", 42, 4, "") == "XYZ/PO/2526/0042"
  {
    hide FormatDocNumber, Padded;
    DefaultForm("-", "ABC", Stdc, "2526", 1, 4, "");
    DefaultForm("/", "XYZ", Po, "2526", 42, 4, "");
    PaddedExamples();
  }

  /** The examples of the documentation. */
  lemma FormatExamples()
    ensures FormatDocNumber(DEFAULT_FORMAT, "-", "ABC", Tdc, "2526", 1, 3, "") == "ABC-TDC-2526-001"
    ensures FormatDocNumber(DEFAULT_FORMAT, "-", "ABC", Odc, "2526", 5, 3, "") == "ABC-ODC-2526-005"
    ensures FormatDocNumber(DEFAULT_FORMAT, "-", "ABC", Stdc, "2526", 1, 4, "") == "ABC-STDC-2526-0001"
    ensures FormatDocNumber(DEFAULT_FORMAT, "/", "XYZ", Po, "2526", 42, 4, "") == "XYZ/PO/2526/0042"
  {
    hide *;
    ChallanExamples();
    OtherExamples();
  }

  lemma PaddedExamples()
    ensures Padded(1, 3) == "001" && Padded(5, 3) == "005" && Padded(1, 4) == "0001" && Padded(42, 4) == "0042"
  {
    assert Decimal(1) == "1" && Decimal(5) == "5" && Decimal(4) == "4";
    assert Decimal(42) == Decimal(4) + [DigitChar(2)];
    assert Zeros(0) == "" && Zeros(1) == "0" && Zeros(2) == "00" && Zeros(3) == "000";
  }

  /** An unset template, separator and padding count as the default template, "-" and 3. */
  lemma DefaultsExample()
    ensures Rendered(Config("", "", "ABC", 0, ""), DocNo(SeqKey(1, Tdc, "2526"), 1)) == "ABC-TDC-2526-001"
  {
    hide FormatDocNumber;
    ChallanExamples();
  }

  /** A configured template, separator and padding are used. */
  lemma ConfiguredExample()
    ensures Rendered(Config("{TYPE}{SEP}{SEQ}", "/", "ABC", 4, ""), DocNo(SeqKey(1, Odc, "2526"), 42)) == "ODC/0042"
  {
    var t := Token("TYPE", Token("SEP", Token("SEQ", End)));
    ConfiguredWritten();
    FormatFills(t, "/", "ABC", Odc, "2526", 42, 4, "");
    PaddedExamples();
    hide FormatDocNumber, Padded;
    var v := ValuesOf("/", "ABC", Odc, "2526", 42, 4, "");
    assert Filled(t, v) == Text("ODC", Text("/", Text("0042", End)));
    assert Written(Text("0042", End)) == "0042" by {
      assert "0042" + "" == "0042";
    }
    assert Written(Text("/", Text("0042", End))) == "/" + "0042";
    assert "ODC" + ("/" + "0042") == "ODC/0042";
  }

  lemma ConfiguredWritten()
    ensures var t := Token("TYPE", Token("SEP", Token("SEQ", End))); Written(t) == "{TYPE}{SEP}{SEQ}" && Clean(t)
  {
    assert Tag("SEQ") + "" == Tag("SEQ");
    assert Written(Token("SEQ", End)) == Tag("SEQ");
    assert Written(Token("SEP", Token("SEQ", End))) == Tag("SEP") + Tag("SEQ");
    assert Tag("TYPE") + (Tag("SEP") + Tag("SEQ")) == "{TYPE}{SEP}{SEQ}";
  }

  // ---- Reading a number back ----

  datatype Parts = Parts(kind: SeqType, year: string, num: nat)

  /** The four type codes start with four different letters. */
  function KindByLetter(c: char): SeqType {
    if c == 'P' then Po else if c == 'T' then Tdc else if c == 'O' then Odc else Stdc
  }

  /** Reads year and number. */
  function ReadDated(kind: SeqType, dated: string, sep: nat): R.Option<Parts> {
    var digits := Drop(dated, 4 + sep);
    if |dated| < 4 || exists c :: c in digits && !IsDigit(c) then R.None
    else R.Some(Parts(kind, dated[..4], Value(digits)))
  }

  /** Reads a default-template number, given the lengths of prefix and separator. */
  function ReadBack(s: string, prefix: nat, sep: nat): R.Option<Parts> {
    var rest := Drop(s, prefix + sep);
    if rest == "" then R.None else
      var kind := KindByLetter(rest[0]);
      ReadDated(kind, Drop(rest, |TypeCode(kind)| + sep), sep)
  }

  lemma DropTwo(a: string, b: string, c: string)
    ensures Drop(a + (b + c), |a| + |b|) == c
  {
    assert a + (b + c) == (a + b) + c;
  }

  lemma TakeFirst(a: string, b: string)
    ensures |a + b| >= |a| && (a + b)[..|a|] == a
  {
  }

  lemma ReadsKind(kind: SeqType, tail: string)
    ensures TypeCode(kind) + tail != "" && KindByLetter((TypeCode(kind) + tail)[0]) == kind
  {
  }

  lemma ReadsDated(kind: SeqType, year: Year, sep: string, digits: string)
    requires forall c :: c in digits ==> IsDigit(c)
    ensures ReadDated(kind, year + (sep + digits), |sep|) == R.Some(Parts(kind, year, Value(digits)))
  {
    DropTwo(year, sep, digits);
    TakeFirst(year, sep + digits);
  }

  /** Reading the part after prefix and separator. */
  lemma ReadsRest(sep: string, kind: SeqType, dated: string, prefix: string)
    ensures ReadBack(prefix + (sep + (TypeCode(kind) + (sep + dated))), |prefix|, |sep|) == ReadDated(kind, dated, |sep|)
  {
    DropTwo(prefix, sep, TypeCode(kind) + (sep + dated));
    ReadsKind(kind, sep + dated);
    DropTwo(TypeCode(kind), sep, dated);
  }

  /** Type, financial year and sequence number can be read back from a formatted number. */
  lemma ReadsBack(sep: string, prefix: string, kind: SeqType, year: Year, num: nat, padding: nat, projectRef: string)
    requires BraceFree(prefix) && BraceFree(sep)
    ensures ReadBack(FormatDocNumber(DEFAULT_FORMAT, sep, prefix, kind, year, num, padding, projectRef), |prefix|, |sep|)
            == R.Some(Parts(kind, year, num))
  {
    var digits := Padded(num, padding);
    DefaultForm(sep, prefix, kind, year, num, padding, projectRef);
    ReadsRest(sep, kind, year + (sep + digits), prefix);
    ReadsDated(kind, year, sep, digits);
    ValueOfPadded(num, padding);
  }

  predicate PlainConfig(c: Config) {
    (c.format == "" || c.format == DEFAULT_FORMAT) && BraceFree(c.prefix) && BraceFree(c.sep)
  }

  /** Under one project's configuration, different numbers are written differently. */
  lemma DifferentNumbersPrintDifferently(c: Config, a: DocNo, b: DocNo)
    requires PlainConfig(c) && a.key.project == b.key.project && a != b
    ensures Rendered(c, a) != Rendered(c, b)
  {
    ReadsBack(Separator(c), c.prefix, a.key.kind, a.key.year, a.num, Padding(c), c.projectRef);
    ReadsBack(Separator(c), c.prefix, b.key.kind, b.key.year, b.num, Padding(c), c.projectRef);
  }

  // ---- Any template ----

  /** How often a token occurs. */
  function Times(t: Template, name: string): nat {
    match t
    case End => 0
    case Text(_, rest) => Times(rest, name)
    case Token(n, rest) => (if n == name then 1 else 0) + Times(rest, name)
  }

  function Letters(s: string): nat {
    if s == "" then 0 else (if IsDigit(s[0]) then 0 else 1) + Letters(s[1..])
  }

  lemma {:induction false} LettersConcat(a: string, b: string)
    ensures Letters(a + b) == Letters(a) + Letters(b)
  {
    if a == "" {
      assert a + b == b;
    } else {
      LettersConcat(a[1..], b);
      assert (a + b)[1..] == a[1..] + b;
    }
  }

  lemma {:induction false} LettersOfDigits(s: string)
    requires forall c :: c in s ==> IsDigit(c)
    ensures Letters(s) == 0
  {
    if s != "" {
      LettersOfDigits(s[1..]);
    }
  }

  lemma {:induction false} LettersOfLetters(s: string)
    requires forall c :: c in s ==> !IsDigit(c)
    ensures Letters(s) == |s|
  {
    if s != "" {
      LettersOfLetters(s[1..]);
    }
  }

  /** Values under one configuration: letters as type, four digits as year, digits as number. */
  ghost predicate Alike(v: Values, w: Values) {
    && v.prefix == w.prefix && v.sep == w.sep && v.projectRef == w.projectRef
    && |v.year| == |w.year|
    && Letters(v.year) == 0 && Letters(w.year) == 0 && Letters(v.digits) == 0 && Letters(w.digits) == 0
    && Letters(v.code) == |v.code| && Letters(w.code) == |w.code|
  }

  /** How much longer a value is in v than in w, and by how many letters. */
  lemma TokenSizes(v: Values, w: Values, n: string)
    requires Alike(v, w) && Known(n)
    ensures Letters(v.Of(n)) - Letters(w.Of(n)) == if n == "TYPE" then |v.code| - |w.code| else 0
    ensures |v.Of(n)| - |w.Of(n)| == (if n == "TYPE" then |v.code| - |w.code| else 0) + (if n == "SEQ" then |v.digits| - |w.digits| else 0)
  {
  }

  lemma TypeAndNumberKnown()
    ensures Known("TYPE") && Known("SEQ")
  {
  }

  lemma Once(k: nat, x: int)
    ensures (1 + k) * x == x + k * x
  {
  }

  /** The letters of a printed number tell the length of its type, and then its length tells that of its number. */
  lemma {:induction false} PrintedSizes(t: Template, v: Values, w: Values)
    requires Alike(v, w)
    ensures Letters(Written(Filled(t, v))) - Letters(Written(Filled(t, w))) == Times(t, "TYPE") * (|v.code| - |w.code|)
    ensures |Written(Filled(t, v))| - |Written(Filled(t, w))|
            == Times(t, "TYPE") * (|v.code| - |w.code|) + Times(t, "SEQ") * (|v.digits| - |w.digits|)
  {
    hide Letters, Values.Of, Known, Tag, Alike;
    match t
    case End =>
    case Text(s, rest) =>
      PrintedSizes(rest, v, w);
      LettersConcat(s, Written(Filled(rest, v)));
      LettersConcat(s, Written(Filled(rest, w)));
    case Token(n, rest) =>
      PrintedSizes(rest, v, w);
      Once(Times(rest, "TYPE"), |v.code| - |w.code|);
      Once(Times(rest, "SEQ"), |v.digits| - |w.digits|);
      if Known(n) {
        TokenSizes(v, w, n);
        LettersConcat(v.Of(n), Written(Filled(rest, v)));
        LettersConcat(w.Of(n), Written(Filled(rest, w)));
      } else {
        TypeAndNumberKnown();
        LettersConcat(Tag(n), Written(Filled(rest, v)));
        LettersConcat(Tag(n), Written(Filled(rest, w)));
      }
  }

  lemma SameStart(a: string, b: string, c: string, d: string)
    requires a + b == c + d && |a| == |c|
    ensures a == c && b == d
  {
    assert (a + b)[..|a|] == a && (c + d)[..|c|] == c;
    assert (a + b)[|a|..] == b && (c + d)[|c|..] == d;
  }

  /** Printed alike with values of the same lengths, every token that occurs has the same value. */
  lemma {:induction false} SamePieces(t: Template, v: Values, w: Values, name: string)
    requires Written(Filled(t, v)) == Written(Filled(t, w)) && Known(name) && Times(t, name) > 0
    requires forall n :: Known(n) ==> |v.Of(n)| == |w.Of(n)|
    ensures v.Of(name) == w.Of(name)
  {
    hide Values.Of, Known, Tag;
    match t
    case End =>
    case Text(s, rest) =>
      SameStart(s, Written(Filled(rest, v)), s, Written(Filled(rest, w)));
      SamePieces(rest, v, w, name);
    case Token(n, rest) =>
      if Known(n) {
        SameStart(v.Of(n), Written(Filled(rest, v)), w.Of(n), Written(Filled(rest, w)));
      } else {
        SameStart(Tag(n), Written(Filled(rest, v)), Tag(n), Written(Filled(rest, w)));
      }
      if n != name {
        SamePieces(rest, v, w, name);
      }
  }

  lemma NoProduct(k: nat, x: int)
    requires k > 0 && k * x == 0
    ensures x == 0
  {
  }

  lemma SameSizes(t: Template, v: Values, w: Values)
    requires Alike(v, w) && Written(Filled(t, v)) == Written(Filled(t, w))
    requires Times(t, "TYPE") > 0 && Times(t, "SEQ") > 0
    ensures forall n :: Known(n) ==> |v.Of(n)| == |w.Of(n)|
  {
    PrintedSizes(t, v, w);
    NoProduct(Times(t, "TYPE"), |v.code| - |w.code|);
    NoProduct(Times(t, "SEQ"), |v.digits| - |w.digits|);
    forall n | Known(n)
      ensures |v.Of(n)| == |w.Of(n)|
    {
      TokenSizes(v, w, n);
    }
  }

  predicate Separates(t: Template) {
    Times(t, "TYPE") > 0 && Times(t, "FY") > 0 && Times(t, "SEQ") > 0
  }

  lemma SameValues(t: Template, v: Values, w: Values)
    requires Alike(v, w) && Written(Filled(t, v)) == Written(Filled(t, w)) && Separates(t)
    ensures v.code == w.code && v.year == w.year && v.digits == w.digits
  {
    SameSizes(t, v, w);
    SamePieces(t, v, w, "TYPE");
    SamePieces(t, v, w, "FY");
    SamePieces(t, v, w, "SEQ");
  }

  /** A project's number filled into any template. */
  function ValuesFor(c: Config, no: DocNo): Values {
    ValuesOf(Separator(c), c.prefix, no.key.kind, no.key.year, no.num, Padding(c), c.projectRef)
  }

  lemma CodesAreLetters(kind: SeqType)
    ensures forall c :: c in TypeCode(kind) ==> !IsDigit(c)
  {
  }

  lemma CodesDiffer(a: SeqType, b: SeqType)
    requires TypeCode(a) == TypeCode(b)
    ensures a == b
  {
    ReadsKind(a, "");
    ReadsKind(b, "");
  }

  lemma AlikeUnder(c: Config, a: DocNo, b: DocNo)
    ensures Alike(ValuesFor(c, a), ValuesFor(c, b))
  {
    forall no | no in {a, b}
      ensures var v := ValuesFor(c, no); Letters(v.year) == 0 && Letters(v.digits) == 0 && Letters(v.code) == |v.code|
    {
      CodesAreLetters(no.key.kind);
      LettersOfLetters(TypeCode(no.key.kind));
      LettersOfDigits(no.key.year);
      LettersOfDigits(Padded(no.num, Padding(c)));
    }
  }

  /** The configuration uses template t, and neither its prefix nor its separator contains a brace. */
  predicate Uses(c: Config, t: Template) {
    Clean(t) && Written(t) == Format(c) && BraceFree(c.prefix) && BraceFree(c.sep)
  }

  lemma RenderedByTemplate(c: Config, t: Template, no: DocNo)
    requires Uses(c, t)
    ensures Rendered(c, no) == Written(Filled(t, ValuesFor(c, no)))
  {
    hide Filled, Written, FormatDocNumber;
    var year: string := no.key.year;
    assert BraceFree(year) && BraceFree(Separator(c));
    FormatFills(t, Separator(c), c.prefix, no.key.kind, no.key.year, no.num, Padding(c), c.projectRef);
  }

  /** With type, year and number in the template, different numbers of a project are written differently. */
  lemma SeparatedPrintDifferently(c: Config, t: Template, a: DocNo, b: DocNo)
    requires Uses(c, t) && Separates(t) && a.key.project == b.key.project && a != b
    ensures Rendered(c, a) != Rendered(c, b)
  {
    hide Filled, Written, Rendered, Separates, Uses, Alike;
    RenderedByTemplate(c, t, a);
    RenderedByTemplate(c, t, b);
    if Rendered(c, a) == Rendered(c, b) {
      AlikeUnder(c, a, b);
      SameValues(t, ValuesFor(c, a), ValuesFor(c, b));
      CodesDiffer(a.key.kind, b.key.kind);
      ValueOfPadded(a.num, Padding(c));
      ValueOfPadded(b.num, Padding(c));
    }
  }

  /** A token that does not occur does not show. */
  lemma {:induction false} UnusedToken(t: Template, v: Values, w: Values, name: string)
    requires Times(t, name) == 0 && forall n :: n != name && Known(n) ==> v.Of(n) == w.Of(n)
    ensures Filled(t, v) == Filled(t, w)
  {
    hide Values.Of, Known;
    match t
    case End =>
    case Text(_, rest) => UnusedToken(rest, v, w, name);
    case Token(_, rest) => UnusedToken(rest, v, w, name);
  }

  lemma UnusedPrintAlike(c: Config, t: Template, a: DocNo, b: DocNo, name: string)
    requires Uses(c, t) && Times(t, name) == 0
    requires var v, w := ValuesFor(c, a), ValuesFor(c, b); forall n :: n != name && Known(n) ==> v.Of(n) == w.Of(n)
    ensures Rendered(c, a) == Rendered(c, b)
  {
    hide Values.Of, Known, Filled, Written, Rendered;
    UnusedToken(t, ValuesFor(c, a), ValuesFor(c, b), name);
    RenderedByTemplate(c, t, a);
    RenderedByTemplate(c, t, b);
  }

  ghost predicate PrintsApart(c: Config) {
    forall a: DocNo, b: DocNo :: a.key.project == b.key.project && a != b ==> Rendered(c, a) != Rendered(c, b)
  }

  lemma UnusedRepeats(c: Config, t: Template)
    requires Uses(c, t) && !Separates(t)
    ensures !PrintsApart(c)
  {
    hide Rendered, Filled, Written, Uses, Times;
    var a := DocNo(SeqKey(1, Tdc, "2526"), 1);
    if Times(t, "TYPE") == 0 {
      UnusedPrintAlike(c, t, a, DocNo(SeqKey(1, Odc, "2526"), 1), "TYPE");
    } else if Times(t, "FY") == 0 {
      UnusedPrintAlike(c, t, a, DocNo(SeqKey(1, Tdc, "2627"), 1), "FY");
    } else {
      UnusedPrintAlike(c, t, a, DocNo(SeqKey(1, Tdc, "2526"), 2), "SEQ");
    }
  }

  /** A configured template keeps the numbers of a project apart exactly when type, year and number occur in it. */
  lemma PrintsApartExactly(c: Config, t: Template)
    requires Uses(c, t)
    ensures PrintsApart(c) <==> Separates(t)
  {
    hide Rendered, Uses, Separates;
    if Separates(t) {
      forall a: DocNo, b: DocNo | a.key.project == b.key.project && a != b
        ensures Rendered(c, a) != Rendered(c, b)
      {
        SeparatedPrintDifferently(c, t, a, b);
      }
    } else {
      UnusedRepeats(c, t);
    }
  }

  /** The default template is one that does. */
  lemma DefaultSeparates(c: Config)
    requires PlainConfig(c)
    ensures Uses(c, DefaultTemplate()) && Separates(DefaultTemplate())
  {
    DefaultWritten();
    assert Times(Token("SEQ", End), "SEQ") == 1;
    assert Times(Token("FY", Token("SEP", Token("SEQ", End))), "FY") >= 1;
  }
}
