/**
 * The Architecture Decision Record validator: every ADR file under `adr/`
 * carries YAML front matter between `---` lines with required scalar and
 * list fields; identifiers, file names, statuses, review dates, linked
 * artefacts, backlog keys and people are checked one after another, the
 * first failure aborts the load, and every ADR the manuscript references
 * must have a record.
 *
 * File contents, YAML parsing and the file system's existence test are parameters.
 */
module ValidateAdrs {
  import opened Wrappers
  import opened Str
  import opened Values
  import Seqs
  import Lex

  datatype Date = Date(year: nat, month: nat, day: nat)

  /** What `AdrValidationError` reports; `path` is the ADR file. */
  datatype AdrError =
    | MissingDirectory
    | MissingHeader(path: string)
    | Unterminated(path: string)
    | Unparsable(path: string)
    | Incomplete(path: string, missingScalar: seq<string>, missingList: seq<string>)
      /** the list fields that are not non-empty lists (the message names one of them) */
    | NotNonEmptyList(path: string, keys: set<Key>)
      /** the scalar fields that are not populated strings (the message names one of them) */
    | NotPopulatedString(path: string, keys: set<Key>)
    | BadId(path: string)
    | MisnamedFile(path: string, adrId: string)
    | BadStatus(path: string, status: string)
    | BadDate(path: string, field: string)
    | ReviewBeforeDate(path: string)
    | DueNotAfterReview(path: string)
    | NotAPath(path: string)
    | AbsolutePath(path: string, entry: string)
    | MissingArtefact(path: string, entry: string)
    | NotAReference(path: string)
    | BadBacklogKey(path: string, entry: string)
    | BlankDecider(path: string)
    | BlankReviewer(path: string)
    | NoRecords
    | MissingRecords(ids: seq<string>)

  datatype AdrRecord = AdrRecord(
    adrId: string, title: string, status: string,
    date: Date, lastReviewed: Date, nextReviewDue: Date,
    deciders: seq<string>, reviewers: seq<string>,
    relatedChapters: seq<string>, relatedDiagrams: seq<string>, backlogItems: seq<string>,
    sourcePath: string, frontMatter: Value, body: string)

  const SampleIds: set<string> := {"ADR-XXXX", "ADR-0001", "ADR-0002"}

  /** The required front-matter keys. */
  datatype Key =
    | AdrId | Title | Status | DecisionDate | LastReviewed | NextReviewDue
    | Deciders | Reviewers | RelatedChapters | RelatedDiagrams | RelatedBacklogItems

  function Name(k: Key): string
  {
    match k
    case AdrId => "adr_id"
    case Title => "title"
    case Status => "status"
    case DecisionDate => "date"
    case LastReviewed => "last_reviewed"
    case NextReviewDue => "next_review_due"
    case Deciders => "deciders"
    case Reviewers => "reviewers"
    case RelatedChapters => "related_chapters"
    case RelatedDiagrams => "related_diagrams"
    case RelatedBacklogItems => "related_backlog_items"
  }

  const ListFields: seq<Key> := [Deciders, Reviewers, RelatedChapters, RelatedDiagrams, RelatedBacklogItems]

  const ScalarFields: seq<Key> := [AdrId, Title, Status, DecisionDate, LastReviewed, NextReviewDue]

  const AllowedStatus: set<string> := {"Proposed", "Accepted", "Deprecated", "Superseded"}

  // ------------------------------------------------------------ front matter

  predicate IsNewline(c: char) { c == '\n' }

  /** The first `\n---` at or after index 4 of `text` starts at `e`. */
  predicate ClosesAt(text: string, e: nat)
  {
    4 <= e && OccursAt(text, "\n---", e) && forall i :: 4 <= i < e ==> !OccursAt(text, "\n---", i)
  }

  /**
   * The YAML text between the opening `---\n` and the first `\n---` at or
   * after index 4, and the body after that marker without leading newlines.
   */
  function SplitFrontMatter(text: string, path: string): (r: Result<(string, string), AdrError>)
    ensures r.Err? ==> r.error == if StartsWith(text, "---\n") then Unterminated(path) else MissingHeader(path)
    ensures r.Err? <==> !StartsWith(text, "---\n") || forall i :: 4 <= i ==> !OccursAt(text, "\n---", i)
    ensures r.Ok? ==> (ClosesAt(text, 4 + |r.value.0|) && text[4..4 + |r.value.0|] == r.value.0
                       && r.value.1 == DropWhile(text[4 + |r.value.0| + 4..], IsNewline))
  {
    if !StartsWith(text, "---\n") then Err(MissingHeader(path))
    else
      var e := FindFrom(text, "\n---", 4);
      if e < 0 then Err(Unterminated(path))
      else
        var fm := text[4..e];
        assert 4 + |fm| == e && ClosesAt(text, e);
        Ok((fm, DropWhile(text[e + 4..], IsNewline)))
  }

  /** Front matter free of the closing marker comes back out of the file it was written into. */
  lemma SplitJoin(fm: string, rest: string, path: string)
    requires !Contains(fm, "\n---")
    ensures SplitFrontMatter("---\n" + fm + "\n---" + rest, path) == Ok((fm, DropWhile(rest, IsNewline)))
  {
    var text := "---\n" + fm + "\n---" + rest;
    var e := 4 + |fm|;
    assert text[..4] == "---\n";
    assert text[e..e + 4] == "\n---";
    assert text[4..e] == fm;
    assert text[e + 4..] == rest;
    ContainsIff(fm, "\n---");
    forall i | 4 <= i < e ensures !OccursAt(text, "\n---", i) {
      if i + 4 <= e {
        assert fm[i - 4..i] == text[i..i + 4];
        assert !OccursAt(fm, "\n---", i - 4);
      } else {
        assert text[e] == '\n';
        assert text[i..i + 4][e - i] == text[e];
      }
    }
    assert ClosesAt(text, e);
    var r := SplitFrontMatter(text, path);
    assert r.Ok?;
    assert 4 + |r.value.0| == e;
  }

  /** `yaml.safe_load(...) or {}`: a false value becomes the empty mapping. */
  function OrEmpty(v: Value): (r: Value)
    ensures Truthy(v) ==> r == v
    ensures !Truthy(v) ==> r == VDict([])
    ensures Truthy(r) <==> Truthy(v)
    ensures !Truthy(r) ==> r == VDict([])
  {
    if Truthy(v) then v else VDict([])
  }

  // --------------------------------------------------------- required fields

  predicate HasKey(fm: Value, k: Key) { Get(fm, Name(k)).Some? }

  function Field(fm: Value, k: Key): Value { Get(fm, Name(k)).GetOr(VNone) }

  predicate IsNonEmptyList(v: Value) { v.VList? && v.items != [] }

  predicate IsPopulatedString(v: Value) { v.VStr? && !IsBlank(v.s) }

  /** Distinct keys have distinct names. */
  lemma NameInjective(k: Key, k': Key)
    ensures Name(k) == Name(k') ==> k == k'
  {
    if k != k' {
      assert Name(k) != Name(k') by {
        var a, b := Name(k), Name(k');
        assert |a| != |b| || a[0] != b[0] || a[1] != b[1] || a[|a| - 1] != b[|b| - 1] || a[|a| - 2] != b[|b| - 2];
      }
    }
  }

  /** `key not in front_matter`, as a test on keys. */
  function Absent(fm: Value): Key -> bool { k => !HasKey(fm, k) }

  /** `sorted(key for key in fields if key not in front_matter)`. */
  function MissingKeys(fm: Value, fields: seq<Key>): (r: seq<string>)
    ensures Lex.SortedStrings(r)
    ensures forall k :: Name(k) in r <==> k in fields && !HasKey(fm, k)
    ensures forall n :: n in r ==> exists k :: k in fields && Name(k) == n
  {
    var keys := Seqs.Filter(fields, Absent(fm));
    var names := Seqs.Map(keys, Name);
    forall n ensures n in Lex.SortStrings(names) <==> n in names { Lex.SortMembers(names, n); }
    forall n ensures n in names <==> exists k :: k in keys && Name(k) == n { Seqs.MapMembers(keys, Name, n); }
    forall k ensures Name(k) in names <==> k in keys {
      forall k' ensures Name(k') == Name(k) ==> k' == k { NameInjective(k', k); }
    }
    Lex.SortStrings(names)
  }

  lemma NoneMissing(fm: Value, fields: seq<Key>)
    requires forall k :: k in fields ==> HasKey(fm, k)
    ensures MissingKeys(fm, fields) == []
  {
    assert forall i :: 0 <= i < |fields| ==> !Absent(fm)(fields[i]) by {
      forall i | 0 <= i < |fields| ensures !Absent(fm)(fields[i]) { assert fields[i] in fields; }
    }
    Seqs.FilterNone(fields, Absent(fm));
  }

  function BadListFields(fm: Value): set<Key>
  {
    set k | k in ListFields && !IsNonEmptyList(Field(fm, k))
  }

  function BadScalarFields(fm: Value): set<Key>
  {
    set k | k in ScalarFields && !IsPopulatedString(Field(fm, k))
  }

  /** Every list field holds a non-empty list and every scalar field a populated string. */
  predicate WellTyped(fm: Value)
  {
    (forall k :: k in ListFields ==> IsNonEmptyList(Field(fm, k)))
    && (forall k :: k in ScalarFields ==> IsPopulatedString(Field(fm, k)))
  }

  /**
   * `_validate_required_fields`: missing keys first (both kinds named, sorted),
   * then list fields that are not non-empty lists, then scalar fields that
   * are not populated strings.
   */
  function RequiredFieldsError(fm: Value, path: string): Option<AdrError>
  {
    var missingScalar := MissingKeys(fm, ScalarFields);
    var missingList := MissingKeys(fm, ListFields);
    if missingScalar != [] || missingList != [] then Some(Incomplete(path, missingScalar, missingList))
    else if BadListFields(fm) != {} then Some(NotNonEmptyList(path, BadListFields(fm)))
    else if BadScalarFields(fm) != {} then Some(NotPopulatedString(path, BadScalarFields(fm)))
    else None
  }

  /** The required-field check passes exactly when every field is present and well typed. */
  lemma RequiredFieldsOk(fm: Value, path: string)
    ensures RequiredFieldsError(fm, path).None? <==> WellTyped(fm)
  {
    if WellTyped(fm) {
      forall k | k in ScalarFields ensures HasKey(fm, k) { assert IsPopulatedString(Field(fm, k)); }
      forall k | k in ListFields ensures HasKey(fm, k) { assert IsNonEmptyList(Field(fm, k)); }
      NoneMissing(fm, ScalarFields);
      NoneMissing(fm, ListFields);
      assert BadListFields(fm) == {};
      assert BadScalarFields(fm) == {};
    }
    if RequiredFieldsError(fm, path).None? {
      forall k | k in ListFields ensures IsNonEmptyList(Field(fm, k)) { assert k !in BadListFields(fm); }
      forall k | k in ScalarFields ensures IsPopulatedString(Field(fm, k)) { assert k !in BadScalarFields(fm); }
    }
  }

  /** A field is missing exactly when the report is `Incomplete`; it names both kinds of missing fields (see `MissingKeys`). */
  lemma RequiredFieldsMissing(fm: Value, path: string)
    ensures (exists k :: (k in ScalarFields || k in ListFields) && !HasKey(fm, k))
      <==> RequiredFieldsError(fm, path) == Some(Incomplete(path, MissingKeys(fm, ScalarFields), MissingKeys(fm, ListFields)))
  {
    if exists k :: (k in ScalarFields || k in ListFields) && !HasKey(fm, k) {
      var k :| (k in ScalarFields || k in ListFields) && !HasKey(fm, k);
      MissingReported(fm, path, k);
    } else {
      NoneMissing(fm, ScalarFields);
      NoneMissing(fm, ListFields);
      PresentNotIncomplete(fm, path);
    }
  }

  lemma MissingReported(fm: Value, path: string, k: Key)
    requires (k in ScalarFields || k in ListFields) && !HasKey(fm, k)
    ensures RequiredFieldsError(fm, path) == Some(Incomplete(path, MissingKeys(fm, ScalarFields), MissingKeys(fm, ListFields)))
  {
    assert Name(k) in MissingKeys(fm, ScalarFields) || Name(k) in MissingKeys(fm, ListFields);
  }

  lemma PresentNotIncomplete(fm: Value, path: string)
    requires MissingKeys(fm, ScalarFields) == [] && MissingKeys(fm, ListFields) == []
    ensures RequiredFieldsError(fm, path) != Some(Incomplete(path, [], []))
  {
  }

  /** Once every field is present, the report names exactly the list fields, or else the scalar fields, of the wrong shape. */
  lemma RequiredFieldsShape(fm: Value, path: string)
    requires forall k :: (k in ScalarFields || k in ListFields) ==> HasKey(fm, k)
    ensures var r := RequiredFieldsError(fm, path);
      (r.Some? ==> !r.value.Incomplete?)
      && (r.Some? && r.value.NotNonEmptyList? ==>
        r.value.keys != {} && forall k :: k in r.value.keys <==> k in ListFields && !IsNonEmptyList(Field(fm, k)))
      && (r.Some? && r.value.NotPopulatedString? ==>
        (forall k :: k in ListFields ==> IsNonEmptyList(Field(fm, k)))
        && r.value.keys != {} && forall k :: k in r.value.keys <==> k in ScalarFields && !IsPopulatedString(Field(fm, k)))
  {
    RequiredFieldsMissing(fm, path);
    if BadListFields(fm) == {} {
      forall k | k in ListFields ensures IsNonEmptyList(Field(fm, k)) { assert k !in BadListFields(fm); }
    }
  }

  /** The string value of a scalar field (empty when it is not a string). */
  function Text(fm: Value, k: Key): string
  {
    match Field(fm, k)
    case VStr(s) => s
    case _ => ""
  }

  /** The items of a list field (none when it is not a list). */
  function Items(fm: Value, k: Key): seq<Value>
  {
    match Field(fm, k)
    case VList(items) => items
    case _ => []
  }

  // ------------------------------------------------------- identity, status

  /** `ADR-(?P<number>\d{4})` matching the whole identifier. */
  predicate IsAdrId(s: string) { |s| == 8 && s[..4] == "ADR-" && AllDigits(s[4..]) }

  /** The identifier, file name and status checks, in that order. */
  function IdentityError(fm: Value, name: string): (r: Option<AdrError>)
  {
    var id := Strip(Text(fm, AdrId));
    var status := Strip(Text(fm, Status));
    if !IsAdrId(id) then Some(BadId(name))
    else if !StartsWith(name, id) then Some(MisnamedFile(name, id))
    else if status !in AllowedStatus then Some(BadStatus(name, status))
    else None
  }

  // ------------------------------------------------------------------ dates

  predicate IsLeap(y: nat) { y % 4 == 0 && (y % 100 != 0 || y % 400 == 0) }

  function DaysIn(y: nat, m: nat): nat
  {
    if m == 2 then (if IsLeap(y) then 29 else 28)
    else if m == 4 || m == 6 || m == 9 || m == 11 then 30
    else 31
  }

  /** The dates `datetime.date` accepts. */
  predicate ValidDate(d: Date)
  {
    1 <= d.year <= 9999 && 1 <= d.month <= 12 && 1 <= d.day <= DaysIn(d.year, d.month)
  }

  /** `a < b` on dates. */
  predicate DateBefore(a: Date, b: Date)
  {
    a.year < b.year || (a.year == b.year && (a.month < b.month || (a.month == b.month && a.day < b.day)))
  }

  /**
   * `int(part)` on text of ASCII digits: surrounding whitespace is ignored, then
   * an optional sign and decimal digits, single underscores allowed between digits.
   */
  function ParseInt(part: string): Option<int>
  {
    ParseSigned(Strip(part))
  }

  /** Decimal digits, with single underscores between two of them, as `int` accepts them. */
  predicate DigitGroups(d: string)
  {
    d != [] && IsDigit(d[0]) && MoreDigitGroups(d[1..])
  }

  /** What may follow a digit: nothing, another digit, or `_` and a digit, and so on. */
  predicate MoreDigitGroups(d: string)
    decreases |d|
  {
    d == []
    || (IsDigit(d[0]) && MoreDigitGroups(d[1..]))
    || (|d| >= 2 && d[0] == '_' && IsDigit(d[1]) && MoreDigitGroups(d[2..]))
  }

  /** The value of the digits of `d`, its underscores left out. */
  function GroupsValue(d: string): nat
  {
    if d == [] then 0
    else
      var last := d[|d| - 1];
      if IsDigit(last) then 10 * GroupsValue(d[..|d| - 1]) + (last as int - '0' as int)
      else GroupsValue(d[..|d| - 1])
  }

  /** An optional sign followed by digit groups. */
  function ParseSigned(t: string): Option<int>
  {
    var signed := t != [] && (t[0] == '+' || t[0] == '-');
    var digits := if signed then t[1..] else t;
    if !DigitGroups(digits) then None
    else
      var v: int := GroupsValue(digits);
      if signed && t[0] == '-' then Some(-v) else Some(v)
  }

  /** A run of plain digits is a digit group. */
  lemma {:induction false} DigitsAreGroups(d: string)
    requires AllDigits(d)
    ensures MoreDigitGroups(d)
    ensures GroupsValue(d) == DigitsValue(d)
    decreases |d|
  {
    if d != [] {
      assert AllDigits(d[1..]) by {
        assert forall i :: 0 <= i < |d| - 1 ==> d[1..][i] == d[i + 1];
      }
      DigitsAreGroups(d[1..]);
      assert AllDigits(d[..|d| - 1]) by {
        assert forall i :: 0 <= i < |d| - 1 ==> d[..|d| - 1][i] == d[i];
      }
      DigitsAreGroups(d[..|d| - 1]);
    }
  }

  /** `int("2_024")` is 2024, and a doubled or trailing underscore is refused. */
  lemma UnderscoresBetweenDigits()
    ensures ParseSigned("2_024") == Some(2024)
    ensures ParseSigned("2__024") == None && ParseSigned("2024_") == None
  {
    assert "2_024"[1..] == "_024" && "_024"[2..] == "24" && "24"[1..] == "4" && "4"[1..] == [];
    assert "2_024"[..4] == "2_02" && "2_02"[..3] == "2_0" && "2_0"[..2] == "2_" && "2_"[..1] == "2" && "2"[..0] == [];
    assert "2__024"[1..] == "__024";
    assert "2024_"[1..] == "024_" && "024_"[1..] == "24_" && "24_"[1..] == "4_" && "4_"[1..] == "_";
  }

  /** A plain run of decimal digits reads as its value. */
  lemma ParseIntDigits(part: string)
    requires AllDigits(part) && part != []
    ensures ParseInt(part) == Some(DigitsValue(part))
  {
    assert !IsSpace(part[0]) && !IsSpace(part[|part| - 1]);
    assert AllDigits(part[1..]) by {
      assert forall i :: 0 <= i < |part| - 1 ==> part[1..][i] == part[i + 1];
    }
    DigitsAreGroups(part[1..]);
    DigitsAreGroups(part);
  }

  /** Whitespace around the text does not change the integer it reads as. */
  lemma ParseIntStrips(part: string)
    ensures ParseInt(part) == ParseInt(Strip(part))
  {
    StripOfStripped(part);
  }

  /** `_parse_date`: three `-`-separated integers forming a calendar date. */
  function ParseDate(value: string): (r: Option<Date>)
    ensures r.Some? ==> ValidDate(r.value)
  {
    var parts := Split(value, '-');
    if |parts| != 3 then None else DateOf(ParseInt(parts[0]), ParseInt(parts[1]), ParseInt(parts[2]))
  }

  /** `date(year, month, day)` on parsed integers. */
  function DateOf(year: Option<int>, month: Option<int>, day: Option<int>): (r: Option<Date>)
    ensures r.Some? ==> ValidDate(r.value)
  {
    if year.Some? && month.Some? && day.Some? && year.value >= 1 && month.value >= 1 && day.value >= 1
      && ValidDate(Date(year.value, month.value, day.value))
    then Some(Date(year.value, month.value, day.value))
    else None
  }

  /** `s` with leading zeros up to width `n`. */
  function Pad(s: string, n: nat): (r: string)
    ensures |r| == if |s| >= n then |s| else n
    decreases n - |s|
  {
    if |s| >= n then s else Pad("0" + s, n)
  }

  /** `date.strftime("%Y-%m-%d")`. */
  function FormatDate(d: Date): string
  {
    Pad(NatToString(d.year), 4) + "-" + Pad(NatToString(d.month), 2) + "-" + Pad(NatToString(d.day), 2)
  }

  lemma {:induction false} LeadingZero(s: string)
    requires AllDigits(s)
    ensures AllDigits("0" + s) && DigitsValue("0" + s) == DigitsValue(s)
    decreases |s|
  {
    if s != [] {
      var t := "0" + s;
      assert t[..|t| - 1] == "0" + s[..|s| - 1];
      LeadingZero(s[..|s| - 1]);
    }
  }

  /** Padding with zeros keeps a digit string's value. */
  lemma {:induction false} PadValue(s: string, n: nat)
    requires AllDigits(s) && s != []
    ensures AllDigits(Pad(s, n)) && Pad(s, n) != [] && DigitsValue(Pad(s, n)) == DigitsValue(s)
    decreases n - |s|
  {
    if |s| < n {
      LeadingZero(s);
      PadValue("0" + s, n);
    }
  }

  /** The decimal text of `x`, padded, is a non-empty run of digits. */
  lemma PaddedDigits(x: nat, n: nat)
    ensures var t := Pad(NatToString(x), n); t != [] && AllDigits(t) && '-' !in t
  {
    PadValue(NatToString(x), n);
    var t := Pad(NatToString(x), n);
    assert forall i :: 0 <= i < |t| ==> t[i] != '-';
  }

  /** The decimal text of `x`, padded, reads back as `x`. */
  lemma PaddedNumber(x: nat, n: nat)
    ensures ParseInt(Pad(NatToString(x), n)) == Some(x)
  {
    PadValue(NatToString(x), n);
    DigitsValueOfNatToString(x);
    ParseIntDigits(Pad(NatToString(x), n));
  }

  lemma SplitAt(a: string, rest: string, c: char)
    requires c !in a
    ensures Split(a + [c] + rest, c) == [a] + Split(rest, c)
  {
    var s := a + [c] + rest;
    assert s[|a|] == c;
    assert s[..|a|] == a && s[|a| + 1..] == rest;
    var i := FirstIndexOf(s, c);
    assert i == |a|;
  }

  /** The text of a date splits at its two hyphens into the padded numbers. */
  lemma FormatDateParts(d: Date)
    ensures Split(FormatDate(d), '-') == [Pad(NatToString(d.year), 4), Pad(NatToString(d.month), 2), Pad(NatToString(d.day), 2)]
  {
    var y := Pad(NatToString(d.year), 4);
    var m := Pad(NatToString(d.month), 2);
    var dd := Pad(NatToString(d.day), 2);
    PaddedDigits(d.year, 4);
    PaddedDigits(d.month, 2);
    PaddedDigits(d.day, 2);
    assert FormatDate(d) == y + ['-'] + (m + ['-'] + dd);
    SplitAt(y, m + ['-'] + dd, '-');
    SplitAt(m, dd, '-');
  }

  /** A date written as `YYYY-MM-DD` reads back as the same date. */
  lemma ParseFormatDate(d: Date)
    requires ValidDate(d)
    ensures ParseDate(FormatDate(d)) == Some(d)
  {
    FormatDateParts(d);
    PaddedNumber(d.year, 4);
    PaddedNumber(d.month, 2);
    PaddedNumber(d.day, 2);
    var parts := Split(FormatDate(d), '-');
    assert DateOf(ParseInt(parts[0]), ParseInt(parts[1]), ParseInt(parts[2])) == DateOf(Some(d.year), Some(d.month), Some(d.day));
  }

  /** The review dates, each parsed and in order. */
  datatype Dates = Dates(date: Date, lastReviewed: Date, nextReviewDue: Date)

  function ParsedDate(fm: Value, k: Key, path: string): (r: Result<Date, AdrError>)
  {
    match ParseDate(Text(fm, k))
    case None => Err(BadDate(path, Name(k)))
    case Some(d) => Ok(d)
  }

  /** The three dates parse, `last_reviewed` is not before `date`, and `next_review_due` is after `last_reviewed`. */
  function DatesOf(fm: Value, path: string): (r: Result<Dates, AdrError>)
    ensures r.Ok? ==>
      ParseDate(Text(fm, DecisionDate)) == Some(r.value.date)
      && ParseDate(Text(fm, LastReviewed)) == Some(r.value.lastReviewed)
      && ParseDate(Text(fm, NextReviewDue)) == Some(r.value.nextReviewDue)
      && !DateBefore(r.value.lastReviewed, r.value.date) && DateBefore(r.value.lastReviewed, r.value.nextReviewDue)
  {
    var d := ParsedDate(fm, DecisionDate, path);
    var l := ParsedDate(fm, LastReviewed, path);
    var n := ParsedDate(fm, NextReviewDue, path);
    if d.Err? then Err(d.error)
    else if l.Err? then Err(l.error)
    else if n.Err? then Err(n.error)
    else Ordered(d.value, l.value, n.value, path)
  }

  function Ordered(d: Date, l: Date, n: Date, path: string): (r: Result<Dates, AdrError>)
    ensures r.Ok? ==> r.value == Dates(d, l, n) && !DateBefore(l, d) && DateBefore(l, n)
  {
    if DateBefore(l, d) then Err(ReviewBeforeDate(path))
    else if !DateBefore(l, n) then Err(DueNotAfterReview(path))
    else Ok(Dates(d, l, n))
  }

  // ---------------------------------------------------------- linked paths

  /** The text of a path entry (entries that are not strings are rejected before it is used). */
  function PathText(v: Value): string { if v.VStr? then v.s else "" }

  /** Why one `related_*` entry is rejected, if it is. */
  function PathEntryError(v: Value, path: string, present: string -> bool): (r: Option<AdrError>)
    ensures r.None? <==> v.VStr? && !StartsWith(v.s, "/") && present(v.s)
  {
    if !v.VStr? then Some(NotAPath(path))
    else if StartsWith(v.s, "/") then Some(AbsolutePath(path, v.s))
    else if !present(v.s) then Some(MissingArtefact(path, v.s))
    else None
  }

  function PathCheck(path: string, present: string -> bool): Value -> Option<AdrError>
  {
    v => PathEntryError(v, path, present)
  }

  predicate RelativeAndPresent(p: string, present: string -> bool) { !StartsWith(p, "/") && present(p) }

  /** What `_normalise_paths` returns: the entries when every one is a relative path that present, else the first entry's error. */
  function PathsOf(entries: seq<Value>, path: string, present: string -> bool): (r: Result<seq<string>, AdrError>)
    ensures r.Ok? <==> forall i :: 0 <= i < |entries| ==> entries[i].VStr? && RelativeAndPresent(entries[i].s, present)
    ensures r.Ok? ==> |r.value| == |entries| && forall i :: 0 <= i < |entries| ==> r.value[i] == entries[i].s
    ensures r.Err? ==> exists i :: (0 <= i < |entries| && PathEntryError(entries[i], path, present) == Some(r.error)
                                    && forall j :: 0 <= j < i ==> PathEntryError(entries[j], path, present).None?)
  {
    var e := Seqs.FirstError(entries, PathCheck(path, present));
    if e.Some? then Err(e.value)
    else
      forall i | 0 <= i < |entries| ensures Seqs.Map(entries, PathText)[i] == entries[i].s {
        Seqs.MapAt(entries, PathText, i);
      }
      Ok(Seqs.Map(entries, PathText))
  }

  /** `_normalise_paths`: the loop over the entries that stops at the first bad one. */
  method NormalisePaths(entries: seq<Value>, path: string, present: string -> bool) returns (r: Result<seq<string>, AdrError>)
    ensures r == PathsOf(entries, path, present)
  {
    var check := PathCheck(path, present);
    var resolved: seq<string> := [];
    var i := 0;
    while i < |entries|
      invariant i <= |entries|
      invariant Seqs.FirstError(entries[..i], check).None?
      invariant resolved == Seqs.Map(entries[..i], PathText)
    {
      assert entries[..i + 1][..i] == entries[..i];
      var err := PathEntryError(entries[i], path, present);
      if err.Some? {
        Seqs.FirstErrorPrefix(entries, check, i + 1);
        return Err(err.value);
      }
      resolved := resolved + [entries[i].s];
      i := i + 1;
    }
    assert entries[..i] == entries;
    return Ok(resolved);
  }

  // --------------------------------------------------------- backlog keys

  predicate IsKeyChar(c: char) { IsAsciiUpper(c) || IsDigit(c) || c == '_' || c == '-' }

  /** `[A-Z][A-Z0-9_-]+-\d+` matches all of `s`, its last `-` being at index `j`. */
  predicate BacklogSplit(s: string, j: nat)
  {
    2 <= j < |s| - 1 && IsAsciiUpper(s[0]) && (forall i :: 1 <= i < j ==> IsKeyChar(s[i]))
    && s[j] == '-' && (forall i :: j < i < |s| ==> IsDigit(s[i]))
  }

  /** The number of digits at the end of `s`. */
  function TrailingDigits(s: string): (d: nat)
    ensures d <= |s|
    ensures forall i :: |s| - d <= i < |s| ==> IsDigit(s[i])
    ensures d == |s| || !IsDigit(s[|s| - d - 1])
  {
    |s| - |DropWhileEnd(s, IsDigit)|
  }

  /** A backlog key such as `ARCH-42`: the split before the trailing digits is the only one possible. */
  predicate IsBacklogKey(s: string)
  {
    var d := TrailingDigits(s);
    d < |s| && BacklogSplit(s, |s| - d - 1)
  }

  /** The scan agrees with the regular expression's full match. */
  lemma BacklogKeyIff(s: string)
    ensures IsBacklogKey(s) <==> exists j: nat :: BacklogSplit(s, j)
  {
    if j: nat :| BacklogSplit(s, j) {
      var d := TrailingDigits(s);
      if |s| - d - 1 < j { assert IsDigit(s[j]); }
      if |s| - d - 1 > j { assert IsDigit(s[|s| - d - 1]); }
    }
  }

  /** Why one backlog entry is rejected, if it is. */
  function BacklogEntryError(v: Value, path: string): (r: Option<AdrError>)
    ensures r.None? <==> v.VStr? && IsBacklogKey(Strip(v.s))
  {
    if !v.VStr? || IsBlank(v.s) then Some(NotAReference(path))
    else if !IsBacklogKey(Strip(v.s)) then Some(BadBacklogKey(path, v.s))
    else None
  }

  function BacklogCheck(path: string): Value -> Option<AdrError>
  {
    v => BacklogEntryError(v, path)
  }

  /** The loop over `related_backlog_items`: the first entry that is not a reference string in `KEY-1234` form. */
  method CheckBacklog(items: seq<Value>, path: string) returns (r: Option<AdrError>)
    ensures r == Seqs.FirstError(items, BacklogCheck(path))
  {
    var check := BacklogCheck(path);
    var i := 0;
    while i < |items|
      invariant i <= |items|
      invariant Seqs.FirstError(items[..i], check).None?
    {
      assert items[..i + 1][..i] == items[..i];
      var err := BacklogEntryError(items[i], path);
      if err.Some? {
        Seqs.FirstErrorPrefix(items, check, i + 1);
        return err;
      }
      i := i + 1;
    }
    assert items[..i] == items;
    return None;
  }

  // ----------------------------------------------------------------- people

  /** `str(value).strip()`. */
  function PersonName(v: Value): string { Strip(PyStr(v)) }

  function BacklogText(v: Value): string { Strip(PathText(v)) }

  /** The deciders and reviewers lists must hold no entry that is blank once trimmed. */
  function PeopleError(fm: Value, path: string): (r: Option<AdrError>)
    ensures r.None? <==> [] !in Seqs.Map(Items(fm, Deciders), PersonName) && [] !in Seqs.Map(Items(fm, Reviewers), PersonName)
  {
    if [] in Seqs.Map(Items(fm, Deciders), PersonName) then Some(BlankDecider(path))
    else if [] in Seqs.Map(Items(fm, Reviewers), PersonName) then Some(BlankReviewer(path))
    else None
  }

  // ---------------------------------------------------------------- records

  /** Everything `load_adr_records` guarantees about a record it returns. */
  predicate Conforms(rec: AdrRecord, present: string -> bool)
  {
    IdentityConforms(rec) && DatesConform(rec) && PeopleConform(rec) && LinksConform(rec, present)
  }

  predicate IdentityConforms(rec: AdrRecord)
  {
    IsAdrId(rec.adrId) && StartsWith(rec.sourcePath, rec.adrId) && rec.status in AllowedStatus && rec.title != []
  }

  predicate DatesConform(rec: AdrRecord)
  {
    ValidDate(rec.date) && ValidDate(rec.lastReviewed) && ValidDate(rec.nextReviewDue)
    && !DateBefore(rec.lastReviewed, rec.date) && DateBefore(rec.lastReviewed, rec.nextReviewDue)
  }

  predicate PeopleConform(rec: AdrRecord)
  {
    rec.deciders != [] && [] !in rec.deciders && rec.reviewers != [] && [] !in rec.reviewers
  }

  predicate AllRelativeAndPresent(ps: seq<string>, present: string -> bool)
  {
    forall i :: 0 <= i < |ps| ==> RelativeAndPresent(ps[i], present)
  }

  predicate LinksConform(rec: AdrRecord, present: string -> bool)
  {
    rec.relatedChapters != [] && AllRelativeAndPresent(rec.relatedChapters, present)
    && rec.relatedDiagrams != [] && AllRelativeAndPresent(rec.relatedDiagrams, present)
    && rec.backlogItems != [] && forall i :: 0 <= i < |rec.backlogItems| ==> IsBacklogKey(rec.backlogItems[i])
  }

  /** The record built once the fields have passed every check. */
  function Assemble(name: string, fm: Value, body: string, dates: Dates, chapters: seq<string>, diagrams: seq<string>): AdrRecord
  {
    AdrRecord(
      Strip(Text(fm, AdrId)), Strip(Text(fm, Title)), Strip(Text(fm, Status)),
      dates.date, dates.lastReviewed, dates.nextReviewDue,
      Seqs.Map(Items(fm, Deciders), PersonName), Seqs.Map(Items(fm, Reviewers), PersonName),
      chapters, diagrams, Seqs.Map(Items(fm, RelatedBacklogItems), BacklogText),
      name, fm, body)
  }

  /** The checks after the dates: linked chapters, diagrams, backlog items, people. */
  function Linked(name: string, fm: Value, body: string, dates: Dates, present: string -> bool): Result<AdrRecord, AdrError>
  {
    match PathsOf(Items(fm, RelatedChapters), name, present)
    case Err(e) => Err(e)
    case Ok(chapters) =>
      match PathsOf(Items(fm, RelatedDiagrams), name, present)
      case Err(e) => Err(e)
      case Ok(diagrams) =>
        match Seqs.FirstError(Items(fm, RelatedBacklogItems), BacklogCheck(name))
        case Some(e) => Err(e)
        case None =>
          match PeopleError(fm, name)
          case Some(e) => Err(e)
          case None => Ok(Assemble(name, fm, body, dates, chapters, diagrams))
  }

  /** The checks on parsed front matter, in the order `load_adr_records` runs them. */
  function FromFrontMatter(name: string, fm: Value, body: string, present: string -> bool): Result<AdrRecord, AdrError>
  {
    match RequiredFieldsError(fm, name)
    case Some(e) => Err(e)
    case None =>
      match IdentityError(fm, name)
      case Some(e) => Err(e)
      case None =>
        match DatesOf(fm, name)
        case Err(e) => Err(e)
        case Ok(dates) => Linked(name, fm, body, dates, present)
  }

  /** One iteration of the `load_adr_records` loop: the file `name` with contents `text`. */
  function RecordOf(name: string, text: string, parse: string -> Option<Value>, present: string -> bool): Result<AdrRecord, AdrError>
  {
    match SplitFrontMatter(text, name)
    case Err(e) => Err(e)
    case Ok(split) =>
      match parse(split.0)
      case None => Err(Unparsable(name))
      case Some(v) => FromFrontMatter(name, OrEmpty(v), split.1, present)
  }

  /** The loop body of `load_adr_records`: sequential guards, then the record. */
  method ValidateRecord(name: string, text: string, parse: string -> Option<Value>, present: string -> bool)
    returns (r: Result<AdrRecord, AdrError>)
    ensures r == RecordOf(name, text, parse, present)
  {
    var split := SplitFrontMatter(text, name);
    if split.Err? { return Err(split.error); }
    var parsed := parse(split.value.0);
    if parsed.None? { return Err(Unparsable(name)); }
    var fm := OrEmpty(parsed.value);
    var body := split.value.1;
    var required := RequiredFieldsError(fm, name);
    if required.Some? { return Err(required.value); }
    var identity := IdentityError(fm, name);
    if identity.Some? { return Err(identity.value); }
    var dates := DatesOf(fm, name);
    if dates.Err? { return Err(dates.error); }
    r := ValidateLinks(name, fm, body, dates.value, present);
  }

  /** The path, backlog and people guards of the loop body. */
  method ValidateLinks(name: string, fm: Value, body: string, dates: Dates, present: string -> bool)
    returns (r: Result<AdrRecord, AdrError>)
    ensures r == Linked(name, fm, body, dates, present)
  {
    var chapters := NormalisePaths(Items(fm, RelatedChapters), name, present);
    if chapters.Err? { return Err(chapters.error); }
    var diagrams := NormalisePaths(Items(fm, RelatedDiagrams), name, present);
    if diagrams.Err? { return Err(diagrams.error); }
    var backlog := CheckBacklog(Items(fm, RelatedBacklogItems), name);
    if backlog.Some? { return Err(backlog.value); }
    var people := PeopleError(fm, name);
    if people.Some? { return Err(people.value); }
    return Ok(Assemble(name, fm, body, dates, chapters.value, diagrams.value));
  }

  /** A record that passes every check satisfies all of them, and keeps its file name and body. */
  lemma RecordConforms(name: string, text: string, parse: string -> Option<Value>, present: string -> bool)
    requires RecordOf(name, text, parse, present).Ok?
    ensures Conforms(RecordOf(name, text, parse, present).value, present)
    ensures RecordOf(name, text, parse, present).value.sourcePath == name
    ensures RecordOf(name, text, parse, present).value.body == SplitFrontMatter(text, name).value.1
  {
    var split := SplitFrontMatter(text, name).value;
    var fm := OrEmpty(parse(split.0).value);
    var dates := DatesOf(fm, name).value;
    RequiredFieldsOk(fm, name);
    assert ValidDates(dates);
    LinkedConforms(name, fm, split.1, dates, present);
  }

  /** The three dates are calendar dates in the order the checks demand. */
  predicate ValidDates(ds: Dates)
  {
    ValidDate(ds.date) && ValidDate(ds.lastReviewed) && ValidDate(ds.nextReviewDue)
    && !DateBefore(ds.lastReviewed, ds.date) && DateBefore(ds.lastReviewed, ds.nextReviewDue)
  }

  lemma LinkedConforms(name: string, fm: Value, body: string, dates: Dates, present: string -> bool)
    requires WellTyped(fm) && IdentityError(fm, name).None? && ValidDates(dates)
    requires Linked(name, fm, body, dates, present).Ok?
    ensures Conforms(Linked(name, fm, body, dates, present).value, present)
    ensures Linked(name, fm, body, dates, present).value.sourcePath == name
    ensures Linked(name, fm, body, dates, present).value.body == body
  {
    var chapters := PathsOf(Items(fm, RelatedChapters), name, present).value;
    var diagrams := PathsOf(Items(fm, RelatedDiagrams), name, present).value;
    var rec := Assemble(name, fm, body, dates, chapters, diagrams);
    assert Linked(name, fm, body, dates, present) == Ok(rec);
    AssembledConforms(name, fm, body, dates, present, chapters, diagrams);
  }

  lemma AssembledConforms(name: string, fm: Value, body: string, dates: Dates, present: string -> bool, chapters: seq<string>, diagrams: seq<string>)
    requires WellTyped(fm) && IdentityError(fm, name).None? && ValidDates(dates)
    requires PathsOf(Items(fm, RelatedChapters), name, present) == Ok(chapters)
    requires PathsOf(Items(fm, RelatedDiagrams), name, present) == Ok(diagrams)
    requires Seqs.FirstError(Items(fm, RelatedBacklogItems), BacklogCheck(name)).None?
    requires PeopleError(fm, name).None?
    ensures Conforms(Assemble(name, fm, body, dates, chapters, diagrams), present)
  {
    var rec := Assemble(name, fm, body, dates, chapters, diagrams);
    assert IdentityConforms(rec) by { TitlePresent(fm); IdentityPresent(fm, name); }
    assert PeopleConform(rec) by { PeoplePresent(fm, name); }
    assert LinksConform(rec, present) by { LinksPresent(name, fm, present, chapters, diagrams); }
  }

  lemma IdentityPresent(fm: Value, name: string)
    requires IdentityError(fm, name).None?
    ensures var id := Strip(Text(fm, AdrId)); IsAdrId(id) && StartsWith(name, id)
    ensures Strip(Text(fm, Status)) in AllowedStatus
  {
  }

  lemma TitlePresent(fm: Value)
    requires WellTyped(fm)
    ensures Strip(Text(fm, Title)) != []
  {
    assert Title in ScalarFields;
  }

  lemma PeoplePresent(fm: Value, path: string)
    requires WellTyped(fm) && PeopleError(fm, path).None?
    ensures var ds := Seqs.Map(Items(fm, Deciders), PersonName); ds != [] && [] !in ds
    ensures var rs := Seqs.Map(Items(fm, Reviewers), PersonName); rs != [] && [] !in rs
  {
    assert Deciders in ListFields && Reviewers in ListFields;
  }

  lemma LinksPresent(name: string, fm: Value, present: string -> bool, chapters: seq<string>, diagrams: seq<string>)
    requires WellTyped(fm)
    requires PathsOf(Items(fm, RelatedChapters), name, present) == Ok(chapters)
    requires PathsOf(Items(fm, RelatedDiagrams), name, present) == Ok(diagrams)
    requires Seqs.FirstError(Items(fm, RelatedBacklogItems), BacklogCheck(name)).None?
    ensures chapters != [] && AllRelativeAndPresent(chapters, present)
    ensures diagrams != [] && AllRelativeAndPresent(diagrams, present)
    ensures var b := Seqs.Map(Items(fm, RelatedBacklogItems), BacklogText);
      b != [] && forall i :: 0 <= i < |b| ==> IsBacklogKey(b[i])
  {
    assert RelatedChapters in ListFields && RelatedDiagrams in ListFields && RelatedBacklogItems in ListFields;
    var backlog := Items(fm, RelatedBacklogItems);
    forall i | 0 <= i < |backlog| ensures IsBacklogKey(Seqs.Map(backlog, BacklogText)[i]) {
      Seqs.MapAt(backlog, BacklogText, i);
      assert BacklogCheck(name)(backlog[i]).None?;
    }
  }

  // ---------------------------------------------------------------- loading

  predicate IsMarkdown(name: string) { EndsWith(name, ".md") }

  /** `sorted(directory.glob("*.md"))` over the names of the directory's entries. */
  function AdrFiles(names: seq<string>): (r: seq<string>)
    ensures Lex.SortedStrings(r)
    ensures forall n :: n in r <==> n in names && IsMarkdown(n)
  {
    var md := Seqs.Filter(names, IsMarkdown);
    assert forall n :: n in Lex.SortStrings(md) <==> n in md by {
      forall n ensures n in Lex.SortStrings(md) <==> n in md { Lex.SortMembers(md, n); }
    }
    Lex.SortStrings(md)
  }

  /** The validation of one ADR file, read from disk. */
  function Loader(read: string -> string, parse: string -> Option<Value>, present: string -> bool): string -> Result<AdrRecord, AdrError>
  {
    f => RecordOf(f, read(f), parse, present)
  }

  /** `load_adr_records`: the directory must exist and hold at least one ADR, and every ADR must pass. */
  function LoadAll(dirExists: bool, names: seq<string>, read: string -> string, parse: string -> Option<Value>, present: string -> bool)
    : Result<seq<AdrRecord>, AdrError>
  {
    if !dirExists then Err(MissingDirectory)
    else
      match Seqs.Collect(AdrFiles(names), Loader(read, parse, present))
      case Err(e) => Err(e)
      case Ok(rs) => if rs == [] then Err(NoRecords) else Ok(rs)
  }

  /** `load_adr_records`: the directory and file checks around the loop. */
  method LoadAdrRecords(dirExists: bool, names: seq<string>, read: string -> string, parse: string -> Option<Value>, present: string -> bool)
    returns (r: Result<seq<AdrRecord>, AdrError>)
    ensures r == LoadAll(dirExists, names, read, parse, present)
  {
    if !dirExists { return Err(MissingDirectory); }
    var files := AdrFiles(names);
    var loaded := LoadFiles(files, read, parse, present);
    if loaded.Err? { return Err(loaded.error); }
    if loaded.value == [] { return Err(NoRecords); }
    return loaded;
  }

  /** The loop of `load_adr_records` over the sorted ADR files, appending each validated record. */
  method LoadFiles(files: seq<string>, read: string -> string, parse: string -> Option<Value>, present: string -> bool)
    returns (r: Result<seq<AdrRecord>, AdrError>)
    ensures r == Seqs.Collect(files, Loader(read, parse, present))
  {
    var load := Loader(read, parse, present);
    var records: seq<AdrRecord> := [];
    var i := 0;
    while i < |files|
      invariant i <= |files|
      invariant Seqs.Collect(files[..i], load) == Ok(records)
    {
      var rec := ValidateRecord(files[i], read(files[i]), parse, present);
      Seqs.CollectStep(files, load, i, records);
      if rec.Err? {
        Seqs.CollectErrSticks(files, load, i + 1);
        return Err(rec.error);
      }
      records := records + [rec.value];
      i := i + 1;
    }
    assert files[..i] == files;
    return Ok(records);
  }

  /** A successful load holds one conforming record per ADR file, in file-name order, and at least one. */
  lemma LoadedRecordsConform(dirExists: bool, names: seq<string>, read: string -> string, parse: string -> Option<Value>, present: string -> bool)
    requires LoadAll(dirExists, names, read, parse, present).Ok?
    ensures var rs := LoadAll(dirExists, names, read, parse, present).value;
      dirExists && rs != [] && |rs| == |AdrFiles(names)|
      && (forall k :: 0 <= k < |rs| ==> rs[k].sourcePath == AdrFiles(names)[k] && Conforms(rs[k], present))
      && Lex.SortedStrings(Seqs.Map(rs, (rec: AdrRecord) => rec.sourcePath))
  {
    var files := AdrFiles(names);
    var rs := LoadAll(dirExists, names, read, parse, present).value;
    forall k | 0 <= k < |rs| ensures rs[k].sourcePath == files[k] && Conforms(rs[k], present) {
      assert Loader(read, parse, present)(files[k]) == Ok(rs[k]);
      RecordConforms(files[k], read(files[k]), parse, present);
    }
    var paths := Seqs.Map(rs, (rec: AdrRecord) => rec.sourcePath);
    forall k | 0 <= k < |rs| ensures paths[k] == files[k] {
      Seqs.MapAt(rs, (rec: AdrRecord) => rec.sourcePath, k);
    }
    assert paths == files;
  }

  // ------------------------------------------------------------- references

  function AvailableIds(records: seq<AdrRecord>): set<string>
  {
    set rec | rec in records :: rec.adrId
  }

  /** `ensure_references_have_records`: the referenced identifiers, samples aside, that no record carries. */
  function EnsureReferences(records: seq<AdrRecord>, referenced: seq<string>): (r: Option<AdrError>)
    ensures r.Some? <==> exists id :: id in referenced && id !in SampleIds && id !in AvailableIds(records)
    ensures r.Some? ==> r.value.MissingRecords? && Lex.SortedStrings(r.value.ids)
    ensures r.Some? ==> forall id :: id in r.value.ids <==> id in referenced && id !in SampleIds && id !in AvailableIds(records)
  {
    var available := AvailableIds(records);
    var unmatched := Seqs.Filter(referenced, id => id !in SampleIds && id !in available);
    var missing := Lex.SortStrings(Seqs.Dedup(unmatched));
    assert forall id :: id in missing <==> id in unmatched by {
      forall id ensures id in missing <==> id in unmatched { Lex.SortMembers(Seqs.Dedup(unmatched), id); }
    }
    if missing == [] then
      assert forall id :: id in referenced && id !in SampleIds ==> id in available by {
        forall id | id in referenced && id !in SampleIds ensures id in available { assert id !in unmatched; }
      }
      None
    else
      assert missing[0] in unmatched;
      Some(MissingRecords(missing))
  }

  /** `main`: 0 when the records load and every reference is covered, 1 otherwise. */
  function ExitCode(load: Result<seq<AdrRecord>, AdrError>, referenced: seq<string>): (code: int)
    ensures code == 0 || code == 1
    ensures code == 0 <==> load.Ok? && forall id :: id in referenced && id !in SampleIds ==> id in AvailableIds(load.value)
  {
    if load.Err? then 1
    else if EnsureReferences(load.value, referenced).Some? then 1
    else 0
  }
}
