/**
 * The environment check for the book build: it reads the pinned toolchain
 * and dependency versions from the YAML front matter of
 * BOOK_REQUIREMENTS.md and compares them with the installed tools, with
 * requirements.txt, with package.json's devDependencies and with
 * package-lock.json, collecting one issue per disagreement.  The YAML and
 * JSON parsers, the version parser and the tool commands are parameters of
 * the model.
 */
module Environment {
  import opened Wrappers
  import opened Str
  import opened Values
  import Seqs
  import Lex

  /**
   * The two ways a check stops early: a `VerificationError` with its
   * message, or a Python exception from a value of the wrong type (the
   * attribute that was missing).
   */
  datatype Error = VerificationError(message: string) | Crash(attribute: string)

  // ------------------------------------------------------------ dictionaries

  /** `d.get(k)` on a value that must be a dictionary; a missing key gives `None`. */
  function DictGet(d: Value, k: string): (r: Result<Value, Error>)
    ensures r.Ok? <==> d.VDict?
    ensures r.Ok? ==> (r.value == VNone <==> Lookup(d.entries, k) == None || Lookup(d.entries, k) == Some(VNone))
  {
    if d.VDict? then Ok(Lookup(d.entries, k).GetOr(VNone)) else Err(Crash("get"))
  }

  /** `d.get(k, default)` on a value that must be a dictionary. */
  function DictGetOr(d: Value, k: string, default: Value): (r: Result<Value, Error>)
    ensures r.Ok? <==> d.VDict?
    ensures r.Ok? && k !in Keys(d.entries) ==> r.value == default
  {
    if d.VDict? then Ok(Lookup(d.entries, k).GetOr(default)) else Err(Crash("get"))
  }

  /** `d.items()` on a value that must be a dictionary. */
  function Items(d: Value): (r: Result<seq<(string, Value)>, Error>)
    ensures r.Ok? <==> d.VDict?
    ensures r.Ok? ==> r.value == d.entries
  {
    if d.VDict? then Ok(d.entries) else Err(Crash("items"))
  }

  /** `v or {}`. */
  function OrEmpty(v: Value): (r: Value)
    ensures Truthy(v) ==> r == v
    ensures !Truthy(v) ==> r == VDict([])
    ensures Truthy(r) <==> Truthy(v)
    ensures !Truthy(r) ==> r == VDict([])
  {
    if Truthy(v) then v else VDict([])
  }

  // ------------------------------------------------------------ front matter

  const RequirementsMissing := "BOOK_REQUIREMENTS.md is missing."
  const NoFrontMatter := "BOOK_REQUIREMENTS.md does not contain YAML front matter."
  const EmptyFrontMatter := "BOOK_REQUIREMENTS.md front matter is empty."

  /**
   * The lines after the opening marker up to the first line that strips to
   * `---`: a prefix of the input with no marker in it, stopped by a marker
   * or by the end.
   */
  function FrontMatterLines(lines: seq<string>): (r: seq<string>)
    ensures |r| <= |lines| && r == lines[..|r|]
    ensures forall k :: 0 <= k < |r| ==> Strip(r[k]) != "---"
    ensures |r| < |lines| ==> Strip(lines[|r|]) == "---"
  {
    if lines == [] || Strip(lines[0]) == "---" then []
    else
      var r := [lines[0]] + FrontMatterLines(lines[1..]);
      assert lines[1..][..|r| - 1] == lines[1..|r|];
      r
  }

  /** The source's `for ... break` loop that collects the front matter lines. */
  method CollectFrontMatter(lines: seq<string>) returns (fm: seq<string>)
    ensures fm == FrontMatterLines(lines)
  {
    fm := [];
    var i := 0;
    while i < |lines|
      invariant 0 <= i <= |lines|
      invariant fm == lines[..i] && forall k :: 0 <= k < i ==> Strip(lines[k]) != "---"
    {
      if Strip(lines[i]) == "---" {
        break;
      }
      Seqs.PrefixSnoc(lines, i);
      fm := fm + [lines[i]];
      i := i + 1;
    }
    FrontMatterUnique(lines, fm);
  }

  /** The three properties of `FrontMatterLines` pin it down. */
  lemma {:induction false} FrontMatterUnique(lines: seq<string>, fm: seq<string>)
    requires |fm| <= |lines| && fm == lines[..|fm|]
    requires forall k :: 0 <= k < |fm| ==> Strip(fm[k]) != "---"
    requires |fm| < |lines| ==> Strip(lines[|fm|]) == "---"
    ensures fm == FrontMatterLines(lines)
  {
    if lines != [] && Strip(lines[0]) != "---" {
      assert fm != [] && fm[0] == lines[0];
      assert fm[1..] == lines[1..][..|fm| - 1];
      assert |fm| < |lines| ==> lines[1..][|fm| - 1] == lines[|fm|];
      assert forall k :: 0 <= k < |fm| - 1 ==> fm[1..][k] == fm[k + 1];
      FrontMatterUnique(lines[1..], fm[1..]);
    }
  }

  /**
   * `_load_front_matter` on the file's text (`None` when it does not exist),
   * with the YAML loader as a parameter.  It fails exactly when the file is
   * missing, when its first line does not strip to `---`, or when nothing
   * comes before the closing marker; otherwise the loaded value, or `{}`
   * when that is falsy.
   */
  function LoadFrontMatter(text: Option<string>, yaml: string -> Value): (r: Result<Value, Error>)
    ensures r.Err? <==> text.None?
                        || (var lines := SplitLines(text.value);
                            lines == [] || Strip(lines[0]) != "---" || FrontMatterLines(lines[1..]) == [])
    ensures text.None? ==> r == Err(VerificationError(RequirementsMissing))
    ensures r.Ok? ==> r.value == OrEmpty(yaml(Join(FrontMatterLines(SplitLines(text.value)[1..]), "\n")))
  {
    if text.None? then Err(VerificationError(RequirementsMissing))
    else
      var lines := SplitLines(text.value);
      if lines == [] || Strip(lines[0]) != "---" then Err(VerificationError(NoFrontMatter))
      else
        var fm := FrontMatterLines(lines[1..]);
        if fm == [] then Err(VerificationError(EmptyFrontMatter))
        else Ok(OrEmpty(yaml(Join(fm, "\n"))))
  }

  /** `_load_front_matter` as the source runs it. */
  method LoadFrontMatterFile(text: Option<string>, yaml: string -> Value) returns (r: Result<Value, Error>)
    ensures r == LoadFrontMatter(text, yaml)
  {
    if text.None? {
      return Err(VerificationError(RequirementsMissing));
    }
    var lines := SplitLines(text.value);
    if lines == [] || Strip(lines[0]) != "---" {
      return Err(VerificationError(NoFrontMatter));
    }
    var fm := CollectFrontMatter(lines[1..]);
    if fm == [] {
      return Err(VerificationError(EmptyFrontMatter));
    }
    r := Ok(OrEmpty(yaml(Join(fm, "\n"))));
  }

  // ---------------------------------------------------------------- messages

  function CannotParse(raw: string): string { "Cannot parse version '" + raw + "'." }

  function NotFoundMessage(tool: string, expected: Value): string
  {
    tool + ": expected " + PyStr(expected) + ", but the command was not found."
  }

  function MismatchMessage(tool: string, expected: Version, actual: Version): string
  {
    tool + ": expected " + expected.display + ", found " + actual.display + "."
  }

  function MatchedMessage(tool: string, actual: Version): string { tool + ": " + actual.display + " (matched)." }

  function MissingPin(name: string, version: Value): string
  {
    "requirements.txt is missing '" + name + "==" + PyStr(version) + "'."
  }

  function WrongPin(name: string, recorded: string, version: Value): string
  {
    "requirements.txt pins '" + name + "==" + recorded + "' but BOOK_REQUIREMENTS.md expects " + PyStr(version) + "."
  }

  function ExtrasMessage(prefix: string, extras: seq<string>): string { prefix + Join(extras, ", ") + "." }

  function NodeMissing(name: string, version: Value): string
  {
    "package.json is missing '" + name + "' with version " + PyStr(version) + "."
  }

  function NodeWrongPin(name: string, recorded: Value, version: Value): string
  {
    "package.json pins '" + name + "@" + PyStr(recorded) + "' but BOOK_REQUIREMENTS.md expects " + PyStr(version) + "."
  }

  function LockMismatch(name: string, recorded: string, version: Value): string
  {
    "package-lock.json records '" + name + "' as " + recorded + " instead of " + PyStr(version) + "."
  }

  function LockEntryMissing(name: string): string { "package-lock.json is missing the '" + name + "' entry." }

  // ---------------------------------------------------------------- versions

  /**
   * A parsed `packaging` version: its `str()` and the key it compares by
   * (two versions are equal when their keys are, so "1.0" equals "1.0.0").
   */
  datatype Version = Version(display: string, key: string)

  /** `s.lstrip(c)`: the suffix left after every leading `c`. */
  function DropLeading(s: string, c: char): (r: string)
    ensures |r| <= |s| && r == s[|s| - |r|..]
    ensures forall k :: 0 <= k < |s| - |r| ==> s[k] == c
    ensures r == [] || r[0] != c
  {
    if s != [] && s[0] == c then DropLeading(s[1..], c) else s
  }

  /** `raw.strip().lstrip("v")`. */
  function Normalised(raw: string): string { DropLeading(Strip(raw), 'v') }

  /** `_parse_version`: strip, drop leading `v`s, parse; an unparseable text is an error naming the raw text. */
  function ParseVersion(raw: string, parse: string -> Option<Version>): (r: Result<Version, Error>)
    ensures r.Err? <==> parse(Normalised(raw)).None?
    ensures r.Err? ==> r.error == VerificationError(CannotParse(raw))
    ensures r.Ok? ==> r.value == parse(Normalised(raw)).value
  {
    var p := parse(Normalised(raw));
    if p.None? then Err(VerificationError(CannotParse(raw))) else Ok(p.value)
  }

  /** What running a version command gave. */
  datatype Run = NotFound | NonZeroExit | Completed(stdout: string, stderr: string)

  /** The end of the run of digits that starts at `i`. */
  function DigitsEnd(s: string, i: nat): (e: nat)
    requires i <= |s|
    ensures i <= e <= |s| && (e == |s| || !IsDigit(s[e]))
    ensures forall k :: i <= k < e ==> IsDigit(s[k])
    decreases |s| - i
  {
    if i < |s| && IsDigit(s[i]) then DigitsEnd(s, i + 1) else i
  }

  /** `\d+(?:\.\d+)+` matches at `i`: digits, a dot, a digit. */
  predicate VersionAt(s: string, i: nat)
  {
    i <= |s| && var d := DigitsEnd(s, i);
    d > i && d + 1 < |s| && s[d] == '.' && IsDigit(s[d + 1])
  }

  /** Inside a match ending at `e`, position `k` holds a digit, or a dot with a digit after it. */
  predicate DigitOrDot(s: string, k: nat, e: nat)
  {
    k < e <= |s| && (IsDigit(s[k]) || (s[k] == '.' && k + 1 < e && IsDigit(s[k + 1])))
  }

  /** The end of the greedy `(?:\.\d+)+` tail from `j`. */
  function DottedEnd(s: string, j: nat): (e: nat)
    requires j <= |s|
    ensures j <= e <= |s|
    ensures forall k :: j <= k < e ==> DigitOrDot(s, k, e)
    ensures e < |s| ==> !(s[e] == '.' && e + 1 < |s| && IsDigit(s[e + 1]))
    ensures j + 1 < |s| && s[j] == '.' && IsDigit(s[j + 1]) ==> e >= j + 2
    decreases |s| - j
  {
    if j + 1 < |s| && s[j] == '.' && IsDigit(s[j + 1]) then
      var e := DottedEnd(s, DigitsEnd(s, j + 1));
      assert forall k :: j <= k < e ==> DigitOrDot(s, k, e) by {
        forall k | j <= k < e ensures DigitOrDot(s, k, e) {
        }
      }
      e
    else j
  }

  /** The leftmost index at or after `i` where the version pattern matches. */
  function FirstVersionAt(s: string, i: nat): (r: Option<nat>)
    requires i <= |s|
    ensures r.None? ==> forall k :: i <= k <= |s| ==> !VersionAt(s, k)
    ensures r.Some? ==> i <= r.value < |s| && VersionAt(s, r.value) && forall k :: i <= k < r.value ==> !VersionAt(s, k)
    decreases |s| - i
  {
    if VersionAt(s, i) then Some(i)
    else if i == |s| then None
    else FirstVersionAt(s, i + 1)
  }

  /** Digits and dots, starting and ending with a digit, with a dot and every dot followed by a digit: a full match of `\d+(?:\.\d+)+`. */
  predicate DottedNumber(r: string)
  {
    r != [] && IsDigit(r[0]) && IsDigit(r[|r| - 1]) && '.' in r
    && forall k :: 0 <= k < |r| ==> DigitOrDot(r, k, |r|)
  }

  /** The untargeted search: the first dotted number in the output, or the whole output when there is none. */
  function InlineVersion(output: string): (r: string)
    ensures (forall k :: 0 <= k <= |output| ==> !VersionAt(output, k)) ==> r == output
    ensures (exists k :: 0 <= k <= |output| && VersionAt(output, k)) ==> DottedNumber(r)
  {
    match FirstVersionAt(output, 0)
    case None => output
    case Some(i) =>
      var e := DottedEnd(output, DigitsEnd(output, i));
      MatchIsDotted(output, i, e);
      output[i..e]
  }

  /** Where the pattern matches, the greedy match is a dotted number. */
  lemma MatchIsDotted(s: string, i: nat, e: nat)
    requires VersionAt(s, i) && e == DottedEnd(s, DigitsEnd(s, i))
    ensures i < e && DottedNumber(s[i..e])
  {
    var j := DigitsEnd(s, i);
    assert forall k :: i <= k < j ==> DigitOrDot(s, k, e);
    DottedNumberOf(s, i, e);
  }

  lemma DottedNumberOf(s: string, i: nat, e: nat)
    requires i < e <= |s| && IsDigit(s[i])
    requires forall k :: i <= k < e ==> DigitOrDot(s, k, e)
    requires exists k :: i <= k < e && s[k] == '.'
    ensures DottedNumber(s[i..e])
  {
    var r := s[i..e];
    forall k | 0 <= k < |r|
      ensures DigitOrDot(r, k, |r|)
    {
      var m := i + k;
      assert r[k] == s[m];
      assert DigitOrDot(s, m, e);
      if k + 1 < |r| {
        assert r[k + 1] == s[m + 1];
      }
    }
    var k :| i <= k < e && s[k] == '.';
    assert r[k - i] == '.';
    assert r[|r| - 1] == s[e - 1] && DigitOrDot(s, e - 1, e);
    assert r[0] == s[i];
  }

  /** `pandoc\s+(\S+)` matches at `i`: the word, some white space, then something else. */
  predicate PandocAt(s: string, i: nat)
  {
    OccursAt(s, "pandoc", i) && var w := Span(s[i + 6..], IsSpace); w > 0 && i + 6 + w < |s|
  }

  function FirstPandocAt(s: string, i: nat): (r: Option<nat>)
    requires i <= |s|
    ensures r.None? ==> forall k :: i <= k <= |s| ==> !PandocAt(s, k)
    ensures r.Some? ==> i <= r.value && PandocAt(s, r.value) && forall k :: i <= k < r.value ==> !PandocAt(s, k)
    decreases |s| - i
  {
    if PandocAt(s, i) then Some(i)
    else if i == |s| then None
    else FirstPandocAt(s, i + 1)
  }

  /** The targeted search for pandoc: the word after "pandoc" at its first match, or "" when it never matches. */
  function PandocVersion(output: string): (r: string)
    ensures (forall k :: 0 <= k <= |output| ==> !PandocAt(output, k)) <==> r == []
    ensures r != [] ==> NoSpace(r)
  {
    match FirstPandocAt(output, 0)
    case None => []
    case Some(i) =>
      var j := i + 6 + Span(output[i + 6..], IsSpace);
      assert !IsSpace(output[i + 6..][j - i - 6]);
      assert NotSpace(output[j..][0]);
      output[j..j + Span(output[j..], NotSpace)]
  }

  /** The pattern a version command is searched with. */
  datatype Pattern = Inline | PandocWord

  /** `_run_version_command`: "" when the command is missing or fails, else the search on the stripped output. */
  function RunVersionCommand(run: Run, pattern: Pattern): (r: string)
    ensures !run.Completed? ==> r == []
    ensures run.Completed? && pattern == PandocWord ==> r == PandocVersion(Strip(run.stdout + run.stderr))
    ensures run.Completed? && pattern == Inline ==> r == InlineVersion(Strip(run.stdout + run.stderr))
    ensures run.Completed? && pattern == PandocWord ==>
      var o := Strip(run.stdout + run.stderr);
      (r == [] <==> forall k :: 0 <= k <= |o| ==> !PandocAt(o, k)) && (r != [] ==> NoSpace(r))
    ensures run.Completed? && pattern == Inline ==>
      var o := Strip(run.stdout + run.stderr);
      ((forall k :: 0 <= k <= |o| ==> !VersionAt(o, k)) ==> r == o)
      && ((exists k :: 0 <= k <= |o| && VersionAt(o, k)) ==> DottedNumber(r))
  {
    match run
    case Completed(out, err) =>
      var output := Strip(out + err);
      (match pattern
       case Inline => InlineVersion(output)
       case PandocWord => PandocVersion(output))
    case _ => []
  }

  /**
   * `_compare_versions`: an empty actual version is the command not found;
   * otherwise both sides are parsed (an expected value that is not a string
   * fails) and compared by key.
   */
  function CompareVersions(tool: string, expected: Value, actual: string, parse: string -> Option<Version>): (r: Result<(bool, string), Error>)
    ensures actual == [] ==> r == Ok((false, NotFoundMessage(tool, expected)))
    ensures actual != [] && !expected.VStr? ==> r == Err(Crash("strip"))
    ensures r.Ok? && r.value.0 <==>
              actual != [] && expected.VStr?
              && ParseVersion(expected.s, parse).Ok? && ParseVersion(actual, parse).Ok?
              && ParseVersion(expected.s, parse).value.key == ParseVersion(actual, parse).value.key
  {
    if actual == [] then Ok((false, NotFoundMessage(tool, expected)))
    else if !expected.VStr? then Err(Crash("strip"))
    else
      match ParseVersion(expected.s, parse)
      case Err(e) => Err(e)
      case Ok(ev) =>
        match ParseVersion(actual, parse)
        case Err(e) => Err(e)
        case Ok(av) =>
          if av.key != ev.key then Ok((false, MismatchMessage(tool, ev, av)))
          else Ok((true, MatchedMessage(tool, av)))
  }

  // ------------------------------------------------------------------- tools

  /** A row of `verify_tool_versions`'s table: the tool, the declared version and the installed one. */
  datatype ToolCheck = ToolCheck(tool: string, expected: Value, actual: string)

  /** The tool outputs of the machine the check runs on. */
  datatype Probes = Probes(python: string, pandoc: Run, node: Run, mermaid: Run)

  function ToolKey(d: Value, k: string): Value
    requires d.VDict?
  {
    Lookup(d.entries, k).GetOr(VNone)
  }

  /** The four rows; pandoc is only run when a pandoc version is declared. */
  function ToolChecks(toolchain: Value, probes: Probes): (r: Result<seq<ToolCheck>, Error>)
    ensures r.Ok? <==> toolchain.VDict?
    ensures r.Ok? ==> |r.value| == 4
  {
    if !toolchain.VDict? then Err(Crash("get"))
    else
      var pandoc := ToolKey(toolchain, "pandoc");
      Ok([ToolCheck("Python", ToolKey(toolchain, "python"), probes.python),
          ToolCheck("Pandoc", pandoc, if Truthy(pandoc) then RunVersionCommand(probes.pandoc, PandocWord) else ""),
          ToolCheck("Node.js", ToolKey(toolchain, "node"), RunVersionCommand(probes.node, Inline)),
          ToolCheck("Mermaid CLI", ToolKey(toolchain, "mermaid_cli"), RunVersionCommand(probes.mermaid, Inline))])
  }

  function NoExpected(tool: string): string
  {
    tool + ": no expected version declared in BOOK_REQUIREMENTS.md."
  }

  /** The issues of one row: none declared is an issue without a comparison, a failed comparison is its message. */
  function ToolIssue(c: ToolCheck, parse: string -> Option<Version>): (r: Result<seq<string>, Error>)
    ensures !Truthy(c.expected) ==> r == Ok([NoExpected(c.tool)])
    ensures Truthy(c.expected) ==> r.Err? == CompareVersions(c.tool, c.expected, c.actual, parse).Err?
    ensures r.Ok? ==> |r.value| <= 1
  {
    if !Truthy(c.expected) then Ok([NoExpected(c.tool)])
    else
      match CompareVersions(c.tool, c.expected, c.actual, parse)
      case Err(e) => Err(e)
      case Ok((ok, message)) => Ok(if ok then [] else [message])
  }

  /** The rows from `i` on, after the issues `acc` of the rows before; the first error stops the loop. */
  function ToolIssuesFrom(checks: seq<ToolCheck>, i: nat, acc: seq<string>, parse: string -> Option<Version>): Result<seq<string>, Error>
    requires i <= |checks|
    decreases |checks| - i
  {
    if i == |checks| then Ok(acc)
    else
      match ToolIssue(checks[i], parse)
      case Err(e) => Err(e)
      case Ok(x) => ToolIssuesFrom(checks, i + 1, acc + x, parse)
  }

  /** `verify_tool_versions` on the loaded front matter. */
  function ToolIssuesOf(metadata: Value, probes: Probes, parse: string -> Option<Version>): Result<seq<string>, Error>
  {
    match DictGet(metadata, "toolchain")
    case Err(e) => Err(e)
    case Ok(t) =>
      match ToolChecks(OrEmpty(t), probes)
      case Err(e) => Err(e)
      case Ok(checks) => ToolIssuesFrom(checks, 0, [], parse)
  }

  method VerifyToolVersions(metadata: Value, probes: Probes, parse: string -> Option<Version>) returns (r: Result<seq<string>, Error>)
    ensures r == ToolIssuesOf(metadata, probes, parse)
  {
    var t := DictGet(metadata, "toolchain");
    if t.Err? {
      return Err(t.error);
    }
    var toolchain := OrEmpty(t.value);
    var cs := ToolChecks(toolchain, probes);
    if cs.Err? {
      return Err(cs.error);
    }
    r := CheckTools(cs.value, parse);
  }

  /** `verify_tool_versions`'s loop over the rows. */
  method CheckTools(checks: seq<ToolCheck>, parse: string -> Option<Version>) returns (r: Result<seq<string>, Error>)
    ensures r == ToolIssuesFrom(checks, 0, [], parse)
  {
    var issues: seq<string> := [];
    var i := 0;
    while i < |checks|
      invariant 0 <= i <= |checks|
      invariant ToolIssuesFrom(checks, i, issues, parse) == ToolIssuesFrom(checks, 0, [], parse)
    {
      var x := CheckTool(checks[i], parse);
      if x.Err? {
        return Err(x.error);
      }
      ToolIssuesStep(checks, i, issues, x.value, parse);
      issues := issues + x.value;
      i := i + 1;
    }
    r := Ok(issues);
  }

  /** One row of the loop: no declared version is an issue, otherwise the comparison's message when it fails. */
  method CheckTool(c: ToolCheck, parse: string -> Option<Version>) returns (r: Result<seq<string>, Error>)
    ensures r == ToolIssue(c, parse)
  {
    if !Truthy(c.expected) {
      return Ok([NoExpected(c.tool)]);
    }
    var cmp := CompareVersions(c.tool, c.expected, c.actual, parse);
    if cmp.Err? {
      return Err(cmp.error);
    }
    var (success, message) := cmp.value;
    r := Ok(if success then [] else [message]);
  }

  lemma ToolIssuesStep(checks: seq<ToolCheck>, i: nat, acc: seq<string>, x: seq<string>, parse: string -> Option<Version>)
    requires i < |checks| && ToolIssue(checks[i], parse) == Ok(x)
    ensures ToolIssuesFrom(checks, i, acc, parse) == ToolIssuesFrom(checks, i + 1, acc + x, parse)
  {
  }

  /** The loop keeps every earlier issue and adds at most one per row. */
  lemma {:induction false} ToolIssuesGrow(checks: seq<ToolCheck>, i: nat, acc: seq<string>, parse: string -> Option<Version>)
    requires i <= |checks|
    ensures var r := ToolIssuesFrom(checks, i, acc, parse);
            r.Ok? ==> |acc| <= |r.value| <= |acc| + |checks| - i && r.value[..|acc|] == acc
    decreases |checks| - i
  {
    if i < |checks| {
      var x := ToolIssue(checks[i], parse);
      if x.Ok? {
        ToolIssuesGrow(checks, i + 1, acc + x.value, parse);
        var r := ToolIssuesFrom(checks, i + 1, acc + x.value, parse);
        if r.Ok? {
          assert r.value[..|acc|] == (acc + x.value)[..|acc|];
        }
      }
    }
  }

  /** Rows without a declared version give one issue each, whatever is installed and whatever the parser says. */
  lemma {:induction false} UndeclaredRows(checks: seq<ToolCheck>, i: nat, acc: seq<string>, parse: string -> Option<Version>)
    requires i <= |checks| && forall k :: i <= k < |checks| ==> !Truthy(checks[k].expected)
    ensures ToolIssuesFrom(checks, i, acc, parse) == Ok(acc + NoExpectedFrom(checks, i))
    decreases |checks| - i
  {
    if i < |checks| {
      ToolIssuesStep(checks, i, acc, [NoExpected(checks[i].tool)], parse);
      UndeclaredRows(checks, i + 1, acc + [NoExpected(checks[i].tool)], parse);
      assert acc + [NoExpected(checks[i].tool)] + NoExpectedFrom(checks, i + 1) == acc + NoExpectedFrom(checks, i);
    } else {
      assert acc + [] == acc;
    }
  }

  function NoExpectedFrom(checks: seq<ToolCheck>, i: nat): seq<string>
    requires i <= |checks|
    decreases |checks| - i
  {
    if i == |checks| then [] else [NoExpected(checks[i].tool)] + NoExpectedFrom(checks, i + 1)
  }

  lemma FourUndeclared(checks: seq<ToolCheck>, parse: string -> Option<Version>)
    requires |checks| == 4 && forall k :: 0 <= k < 4 ==> !Truthy(checks[k].expected)
    ensures ToolIssuesFrom(checks, 0, [], parse)
            == Ok([NoExpected(checks[0].tool), NoExpected(checks[1].tool), NoExpected(checks[2].tool), NoExpected(checks[3].tool)])
  {
    UndeclaredRows(checks, 0, [], parse);
    assert NoExpectedFrom(checks, 4) == [];
    assert NoExpectedFrom(checks, 3) == [NoExpected(checks[3].tool)];
    assert NoExpectedFrom(checks, 2) == [NoExpected(checks[2].tool), NoExpected(checks[3].tool)];
    assert NoExpectedFrom(checks, 1) == [NoExpected(checks[1].tool), NoExpected(checks[2].tool), NoExpected(checks[3].tool)];
    assert NoExpectedFrom(checks, 0)
           == [NoExpected(checks[0].tool), NoExpected(checks[1].tool), NoExpected(checks[2].tool), NoExpected(checks[3].tool)];
    assert [] + NoExpectedFrom(checks, 0) == NoExpectedFrom(checks, 0);
  }

  /** Front matter without a toolchain gives one issue per tool and compares nothing. */
  lemma NoneDeclared(metadata: Value, probes: Probes, parse: string -> Option<Version>)
    requires metadata.VDict? && !Truthy(Lookup(metadata.entries, "toolchain").GetOr(VNone))
    ensures ToolIssuesOf(metadata, probes, parse)
            == Ok([NoExpected("Python"), NoExpected("Pandoc"), NoExpected("Node.js"), NoExpected("Mermaid CLI")])
  {
    assert OrEmpty(DictGet(metadata, "toolchain").value) == VDict([]);
    var checks := ToolChecks(VDict([]), probes).value;
    assert forall k :: 0 <= k < 4 ==> checks[k].expected == VNone;
    FourUndeclared(checks, parse);
    assert checks[0].tool == "Python" && checks[1].tool == "Pandoc" && checks[2].tool == "Node.js" && checks[3].tool == "Mermaid CLI";
    assert ToolIssuesOf(metadata, probes, parse) == ToolIssuesFrom(checks, 0, [], parse);
  }

  // ------------------------------------------------------ requirements.txt

  /** How `_load_requirements_versions` reads a line. */
  datatype LineKind = Skipped | Pinned(name: string, version: string) | Unpinned(entry: string)

  /** `s.split("==", 1)` on a text that holds "==": the parts around its first occurrence. */
  function SplitPin(s: string): (r: (string, string))
    requires Contains(s, "==")
    ensures s == r.0 + "==" + r.1
    ensures forall j :: 0 <= j < |r.0| ==> !OccursAt(s, "==", j)
  {
    FindIffContains(s, "==");
    var i := FindFrom(s, "==", 0);
    assert s == s[..i] + "==" + s[i + 2..];
    (s[..i], s[i + 2..])
  }

  /** A line strips to nothing or to a comment, lacks "==", or pins the stripped parts around its first "==". */
  function Classify(line: string): LineKind
  {
    var s := Strip(line);
    if s == [] || StartsWith(s, "#") then Skipped
    else if !Contains(s, "==") then Unpinned(s)
    else
      var (a, b) := SplitPin(s);
      Pinned(Strip(a), Strip(b))
  }

  lemma ClassifyCases(line: string)
    ensures var s := Strip(line);
            var k := Classify(line);
            (k.Skipped? <==> s == [] || StartsWith(s, "#"))
            && (k.Unpinned? <==> s != [] && !StartsWith(s, "#") && !Contains(s, "=="))
            && (k.Unpinned? ==> k.entry == s)
            && (k.Pinned? ==> exists a, b :: s == a + "==" + b && k == Pinned(Strip(a), Strip(b))
                                && forall j :: 0 <= j < |a| ==> !OccursAt(s, "==", j))
  {
    var s := Strip(line);
    if Classify(line).Pinned? {
      var (a, b) := SplitPin(s);
      assert s == a + "==" + b && Classify(line) == Pinned(Strip(a), Strip(b));
    }
  }

  function NotPinned(entry: string): string
  {
    "requirements.txt entry '" + entry + "' is not pinned with '=='."
  }

  /** How each line of a file reads. */
  function Kinds(lines: seq<string>): (ks: seq<LineKind>)
    ensures |ks| == |lines| && forall i :: 0 <= i < |lines| ==> ks[i] == Classify(lines[i])
  {
    if lines == [] then [] else [Classify(lines[0])] + Kinds(lines[1..])
  }

  /** The lines from `i` on, into the dictionary `d` built so far; the first unpinned line is an error. */
  function PinsFrom(ks: seq<LineKind>, i: nat, d: seq<(string, string)>): Result<seq<(string, string)>, Error>
    requires i <= |ks|
    decreases |ks| - i
  {
    if i == |ks| then Ok(d)
    else
      match ks[i]
      case Skipped => PinsFrom(ks, i + 1, d)
      case Unpinned(entry) => Err(VerificationError(NotPinned(entry)))
      case Pinned(name, version) => PinsFrom(ks, i + 1, Update(d, name, version))
  }

  /** `_load_requirements_versions` on the file's text (`None` when it does not exist). */
  function RequirementsOf(text: Option<string>): Result<seq<(string, string)>, Error>
  {
    if text.None? then Err(VerificationError("requirements.txt is missing."))
    else PinsFrom(Kinds(SplitLines(text.value)), 0, [])
  }

  method LoadRequirementsVersions(text: Option<string>) returns (r: Result<seq<(string, string)>, Error>)
    ensures r == RequirementsOf(text)
  {
    if text.None? {
      return Err(VerificationError("requirements.txt is missing."));
    }
    var lines := SplitLines(text.value);
    ghost var ks := Kinds(lines);
    var versions: seq<(string, string)> := [];
    var i := 0;
    while i < |lines|
      invariant 0 <= i <= |lines|
      invariant PinsFrom(ks, i, versions) == RequirementsOf(text)
    {
      var k := ReadLine(lines[i]);
      match k {
        case Skipped =>
        case Unpinned(entry) =>
          return Err(VerificationError(NotPinned(entry)));
        case Pinned(name, version) =>
          versions := Update(versions, name, version);
      }
      i := i + 1;
    }
    r := Ok(versions);
  }

  /** The loop body's reading of one line. */
  method ReadLine(line: string) returns (k: LineKind)
    ensures k == Classify(line)
  {
    var stripped := Strip(line);
    if stripped == [] || StartsWith(stripped, "#") {
      return Skipped;
    }
    if !Contains(stripped, "==") {
      return Unpinned(stripped);
    }
    var (name, version) := SplitPin(stripped);
    k := Pinned(Strip(name), Strip(version));
  }

  /** The first line from `i` on that is neither blank, a comment, nor a pin (`|ks|` when there is none). */
  function FirstUnpinned(ks: seq<LineKind>, i: nat): (r: nat)
    requires i <= |ks|
    ensures i <= r <= |ks|
    ensures forall j :: i <= j < r ==> !ks[j].Unpinned?
    ensures r < |ks| ==> ks[r].Unpinned?
    decreases |ks| - i
  {
    if i == |ks| || ks[i].Unpinned? then i else FirstUnpinned(ks, i + 1)
  }

  /** Loading fails exactly when some line is unpinned, with the message for the first such line. */
  lemma {:induction false} PinsErrIff(ks: seq<LineKind>, i: nat, d: seq<(string, string)>)
    requires i <= |ks|
    ensures PinsFrom(ks, i, d).Err? <==> FirstUnpinned(ks, i) < |ks|
    ensures PinsFrom(ks, i, d).Err? ==> PinsFrom(ks, i, d).error == VerificationError(NotPinned(ks[FirstUnpinned(ks, i)].entry))
    decreases |ks| - i
  {
    if i < |ks| && !ks[i].Unpinned? {
      var d' := if ks[i].Pinned? then Update(d, ks[i].name, ks[i].version) else d;
      assert PinsFrom(ks, i, d) == PinsFrom(ks, i + 1, d');
      PinsErrIff(ks, i + 1, d');
    }
  }

  /** The version of the last line that pins `name`, searching from the end. */
  function LastPin(ks: seq<LineKind>, name: string): Option<string>
  {
    if ks == [] then None
    else
      var k := ks[|ks| - 1];
      if k.Pinned? && k.name == name then Some(k.version)
      else LastPin(ks[..|ks| - 1], name)
  }

  function LastPinOr(ks: seq<LineKind>, name: string, d: seq<(string, string)>): Option<string>
  {
    match LastPin(ks, name)
    case Some(v) => Some(v)
    case None => Lookup(d, name)
  }

  /** A later pin of a name overrides an earlier one: the loaded version of a name is that of its last pin line. */
  lemma {:induction false} PinsLookup(ks: seq<LineKind>, i: nat, d: seq<(string, string)>, name: string)
    requires i <= |ks| && PinsFrom(ks, i, d).Ok?
    ensures Lookup(PinsFrom(ks, i, d).value, name) == LastPinOr(ks[i..], name, d)
    decreases |ks| - i
  {
    if i < |ks| {
      var k := ks[i];
      var d' := if k.Pinned? then Update(d, k.name, k.version) else d;
      PinsLookup(ks, i + 1, d', name);
      if k.Pinned? {
        LookupUpdate(d, k.name, k.version, name);
      }
      LastPinCons(ks[i..], name);
      assert ks[i..][1..] == ks[i + 1..];
    }
  }

  /** Read from the front, a pin found later wins over the first line's own pin. */
  lemma {:induction false} LastPinCons(ks: seq<LineKind>, name: string)
    requires ks != []
    ensures LastPin(ks, name)
            == match LastPin(ks[1..], name)
               case Some(v) => Some(v)
               case None => if ks[0].Pinned? && ks[0].name == name then Some(ks[0].version) else None
    decreases |ks|
  {
    if |ks| == 1 {
      assert LastPin(ks[1..], name) == None;
    } else {
      var last := ks[|ks| - 1];
      var init := ks[..|ks| - 1];
      assert ks[1..][|ks[1..]| - 1] == last;
      if !(last.Pinned? && last.name == name) {
        LastPinCons(init, name);
        assert init[1..] == ks[1..][..|ks[1..]| - 1];
        assert init[0] == ks[0];
      }
    }
  }

  // --------------------------------------------------- python dependencies

  const NoPythonDependencies := "No python_dependencies declared in BOOK_REQUIREMENTS.md."

  /** The issue for one declared dependency: missing from requirements.txt, or pinned to another version. */
  function PinIssue(actual: seq<(string, string)>, e: (string, Value)): (r: seq<string>)
    ensures |r| <= 1
    ensures r == [] <==> Lookup(actual, e.0).Some? && VStr(Lookup(actual, e.0).value) == e.1
  {
    match Lookup(actual, e.0)
    case None => [MissingPin(e.0, e.1)]
    case Some(recorded) =>
      if VStr(recorded) != e.1
      then [WrongPin(e.0, recorded, e.1)]
      else []
  }

  function PinIssuesFrom(actual: seq<(string, string)>, es: seq<(string, Value)>, i: nat, acc: seq<string>): seq<string>
    requires i <= |es|
    decreases |es| - i
  {
    if i == |es| then acc else PinIssuesFrom(actual, es, i + 1, acc + PinIssue(actual, es[i]))
  }

  /** The names of `names` not among `declared`, sorted and without repeats: `sorted(set(names) - set(declared))`. */
  function Extras(names: seq<string>, declared: seq<string>): seq<string>
  {
    Lex.SortStrings(Seqs.Dedup(ExtraNames(names, declared)))
  }

  lemma ExtrasSpec(names: seq<string>, declared: seq<string>)
    ensures var r := Extras(names, declared);
            Lex.SortedStrings(r) && Seqs.Distinct(r)
            && forall x :: x in r <==> x in names && x !in declared
  {
    var d := Seqs.Dedup(ExtraNames(names, declared));
    Seqs.DistinctPermuted(d, Lex.SortStrings(d));
    forall x ensures x in Lex.SortStrings(d) <==> x in d {
      assert x in multiset(Lex.SortStrings(d)) <==> x in multiset(d);
    }
  }

  /** No names are extra exactly when every name is declared. */
  lemma ExtrasEmptyIff(names: seq<string>, declared: seq<string>)
    ensures Extras(names, declared) == [] <==> forall x :: x in names ==> x in declared
  {
    ExtrasSpec(names, declared);
    var ex := Extras(names, declared);
    if ex != [] {
      assert ex[0] in ex;
    }
  }

  function ExtraNames(names: seq<string>, declared: seq<string>): (r: seq<string>)
    ensures forall x :: x in r <==> x in names && x !in declared
  {
    if names == [] then []
    else
      var rest := ExtraNames(names[1..], declared);
      assert forall x :: x in names <==> x == names[0] || x in names[1..];
      if names[0] in declared then rest else [names[0]] + rest
  }

  /** The closing issue when some names are extra, one for all of them. */
  function ExtrasIssue(prefix: string, extras: seq<string>): (r: seq<string>)
    ensures r == [] <==> extras == []
  {
    if extras == [] then [] else [ExtrasMessage(prefix, extras)]
  }

  const PythonExtrasPrefix := "requirements.txt contains packages not listed in BOOK_REQUIREMENTS.md: "

  /** `verify_python_dependencies`. */
  function PythonIssuesOf(metadata: Value, requirements: Option<string>): Result<seq<string>, Error>
  {
    match DictGet(metadata, "python_dependencies")
    case Err(e) => Err(e)
    case Ok(raw) =>
      var expected := OrEmpty(raw);
      if !Truthy(expected) then Ok([NoPythonDependencies])
      else
        match RequirementsOf(requirements)
        case Err(e) => Err(e)
        case Ok(actual) =>
          match Items(expected)
          case Err(e) => Err(e)
          case Ok(es) =>
            Ok(PinIssuesFrom(actual, es, 0, [])
               + ExtrasIssue(PythonExtrasPrefix, Extras(Keys(actual), Keys(es))))
  }

  method VerifyPythonDependencies(metadata: Value, requirements: Option<string>) returns (r: Result<seq<string>, Error>)
    ensures r == PythonIssuesOf(metadata, requirements)
  {
    var raw := DictGet(metadata, "python_dependencies");
    if raw.Err? {
      return Err(raw.error);
    }
    var expected := OrEmpty(raw.value);
    if !Truthy(expected) {
      return Ok([NoPythonDependencies]);
    }
    var loaded := LoadRequirementsVersions(requirements);
    if loaded.Err? {
      return Err(loaded.error);
    }
    var actual := loaded.value;
    var items := Items(expected);
    if items.Err? {
      return Err(items.error);
    }
    var es := items.value;
    var issues := CheckPins(actual, es);
    var extras := Extras(Keys(actual), Keys(es));
    if extras != [] {
      issues := issues + [ExtrasMessage(PythonExtrasPrefix, extras)];
    } else {
      assert issues + ExtrasIssue(PythonExtrasPrefix, extras) == issues;
    }
    r := Ok(issues);
  }

  /** `verify_python_dependencies`'s loop over the declared dependencies. */
  method CheckPins(actual: seq<(string, string)>, es: seq<(string, Value)>) returns (issues: seq<string>)
    ensures issues == PinIssuesFrom(actual, es, 0, [])
  {
    issues := [];
    var i := 0;
    while i < |es|
      invariant 0 <= i <= |es|
      invariant PinIssuesFrom(actual, es, i, issues) == PinIssuesFrom(actual, es, 0, [])
    {
      var x := CheckPin(actual, es[i]);
      issues := issues + x;
      i := i + 1;
    }
  }

  /** One declared dependency: missing from requirements.txt, or pinned to another version. */
  method CheckPin(actual: seq<(string, string)>, e: (string, Value)) returns (x: seq<string>)
    ensures x == PinIssue(actual, e)
  {
    var (name, version) := e;
    var recorded := Lookup(actual, name);
    if recorded.None? {
      x := [MissingPin(name, version)];
    } else if VStr(recorded.value) != version {
      x := [WrongPin(name, recorded.value, version)];
    } else {
      x := [];
    }
  }

  /** The issues found so far stay in front of those still to come. */
  lemma {:induction false} PinIssuesAcc(actual: seq<(string, string)>, es: seq<(string, Value)>, i: nat, acc: seq<string>)
    requires i <= |es|
    ensures PinIssuesFrom(actual, es, i, acc) == acc + PinIssuesFrom(actual, es, i, [])
    decreases |es| - i
  {
    if i < |es| {
      var x := PinIssue(actual, es[i]);
      PinIssuesAcc(actual, es, i + 1, acc + x);
      PinIssuesAcc(actual, es, i + 1, [] + x);
      assert [] + x == x;
      Seqs.AppendAssoc(acc, x, PinIssuesFrom(actual, es, i + 1, []));
    }
  }

  /** At most one issue per declared dependency, and none exactly when each one is pinned as declared. */
  lemma {:induction false} PinIssuesShape(actual: seq<(string, string)>, es: seq<(string, Value)>, i: nat)
    requires i <= |es|
    ensures |PinIssuesFrom(actual, es, i, [])| <= |es| - i
    ensures PinIssuesFrom(actual, es, i, []) == [] <==> forall k :: i <= k < |es| ==> PinIssue(actual, es[k]) == []
    decreases |es| - i
  {
    if i < |es| {
      var x := PinIssue(actual, es[i]);
      PinIssuesShape(actual, es, i + 1);
      PinIssuesAcc(actual, es, i + 1, [] + x);
    }
  }

  /**
   * The python dependency issues: one for none declared; otherwise one per
   * declared dependency that requirements.txt lacks or pins differently, and
   * last a single issue exactly when requirements.txt pins names that are
   * not declared.
   */
  lemma PythonIssues(metadata: Value, requirements: Option<string>)
    requires metadata.VDict? && RequirementsOf(requirements).Ok?
    requires var raw := Lookup(metadata.entries, "python_dependencies").GetOr(VNone); Truthy(raw) && raw.VDict?
    ensures var es := Lookup(metadata.entries, "python_dependencies").GetOr(VNone).entries;
            var actual := RequirementsOf(requirements).value;
            var r := PythonIssuesOf(metadata, requirements);
            r.Ok?
            && |r.value| <= |es| + 1
            && (r.value == [] <==>
                  (forall k :: 0 <= k < |es| ==> PinIssue(actual, es[k]) == [])
                  && forall x :: x in Keys(actual) ==> x in Keys(es))
  {
    var raw := Lookup(metadata.entries, "python_dependencies").GetOr(VNone);
    var es := raw.entries;
    var actual := RequirementsOf(requirements).value;
    PinIssuesShape(actual, es, 0);
    ExtrasEmptyIff(Keys(actual), Keys(es));
    var ex := Extras(Keys(actual), Keys(es));
    var pins := PinIssuesFrom(actual, es, 0, []);
    assert DictGet(metadata, "python_dependencies") == Ok(raw) && OrEmpty(raw) == raw;
    assert PythonIssuesOf(metadata, requirements) == Ok(pins + ExtrasIssue(PythonExtrasPrefix, ex));
    assert |pins + ExtrasIssue(PythonExtrasPrefix, ex)| == |pins| + |ExtrasIssue(PythonExtrasPrefix, ex)|;
  }

  // ----------------------------------------------------- node dependencies

  const NoNodeDependencies := "No node_dependencies declared in BOOK_REQUIREMENTS.md."
  const NodeExtrasPrefix := "package.json contains additional devDependencies not listed in BOOK_REQUIREMENTS.md: "

  /** `_load_package_json_versions` on the parsed package.json (`None` when it does not exist). */
  function PackageJsonVersions(json: Option<Value>): (r: Result<seq<(string, Value)>, Error>)
    ensures json.None? ==> r == Err(VerificationError("package.json is missing."))
    ensures json.Some? && !json.value.VDict? ==> r == Err(Crash("get"))
    ensures json.Some? && json.value.VDict? ==>
              var deps := Lookup(json.value.entries, "devDependencies").GetOr(VDict([]));
              (r.Ok? <==> deps.VDict?) && (r.Ok? ==> r.value == deps.entries)
    ensures json.Some? && json.value.VDict? && "devDependencies" !in Keys(json.value.entries) ==> r == Ok([])
  {
    if json.None? then Err(VerificationError("package.json is missing."))
    else
      match DictGetOr(json.value, "devDependencies", VDict([]))
      case Err(e) => Err(e)
      case Ok(deps) => Items(deps)
  }

  /** `_load_package_lock_version`: the stripped `str()` of the package's recorded version, "" when it records none. */
  function LockVersion(lock: Option<Value>, name: string): (r: Result<string, Error>)
    ensures lock.None? ==> r == Err(VerificationError("package-lock.json is missing."))
    ensures r.Ok? ==> r.value == Strip(r.value)
    ensures lock.Some? && lock.value.VDict? ==>
              var packages := Lookup(lock.value.entries, "packages").GetOr(VDict([]));
              packages.VDict? && "node_modules/" + name !in Keys(packages.entries) ==>
                r == Err(VerificationError(LockEntryMissing(name)))
    ensures lock.Some? && lock.value.VDict? ==>
              var packages := Lookup(lock.value.entries, "packages").GetOr(VDict([]));
              packages.VDict? && Lookup(packages.entries, "node_modules/" + name).Some? ==>
                var entry := Lookup(packages.entries, "node_modules/" + name).value;
                entry.VDict? ==> r == Ok(Strip(PyStr(Lookup(entry.entries, "version").GetOr(VStr("")))))
  {
    if lock.None? then Err(VerificationError("package-lock.json is missing."))
    else
      match DictGetOr(lock.value, "packages", VDict([]))
      case Err(e) => Err(e)
      case Ok(packages) =>
        if !packages.VDict? then Err(Crash("__contains__"))
        else
          match Lookup(packages.entries, "node_modules/" + name)
          case None => Err(VerificationError(LockEntryMissing(name)))
          case Some(entry) =>
            match DictGetOr(entry, "version", VStr(""))
            case Err(e) => Err(e)
            case Ok(v) => StripTwice(PyStr(v)); Ok(Strip(PyStr(v)))
  }

  lemma StripTwice(s: string)
    ensures Strip(Strip(s)) == Strip(s)
  {
  }

  /** A dependency is recorded in package.json with a non-null value. */
  function Recorded(versions: seq<(string, Value)>, name: string): Option<Value>
  {
    match Lookup(versions, name)
    case Some(v) => if v == VNone then None else Some(v)
    case None => None
  }

  /**
   * The issues of one declared node dependency: missing, pinned to another
   * version, or (only when package.json agrees) recorded differently in the
   * lock file.
   */
  function NodeIssue(versions: seq<(string, Value)>, lock: Option<Value>, e: (string, Value)): Result<seq<string>, Error>
  {
    match Recorded(versions, e.0)
    case None => Ok([NodeMissing(e.0, e.1)])
    case Some(recorded) =>
      if recorded != e.1 then
        Ok([NodeWrongPin(e.0, recorded, e.1)])
      else
        match LockVersion(lock, e.0)
        case Err(err) => Err(err)
        case Ok(lv) =>
          if VStr(lv) != e.1 then Ok([LockMismatch(e.0, lv, e.1)])
          else Ok([])
  }

  function NodeIssuesFrom(versions: seq<(string, Value)>, lock: Option<Value>, es: seq<(string, Value)>, i: nat, acc: seq<string>): Result<seq<string>, Error>
    requires i <= |es|
    decreases |es| - i
  {
    if i == |es| then Ok(acc)
    else
      match NodeIssue(versions, lock, es[i])
      case Err(e) => Err(e)
      case Ok(x) => NodeIssuesFrom(versions, lock, es, i + 1, acc + x)
  }

  /** `verify_node_dependencies`. */
  function NodeIssuesOf(metadata: Value, json: Option<Value>, lock: Option<Value>): Result<seq<string>, Error>
  {
    match DictGet(metadata, "node_dependencies")
    case Err(e) => Err(e)
    case Ok(raw) =>
      var expected := OrEmpty(raw);
      if !Truthy(expected) then Ok([NoNodeDependencies])
      else
        match PackageJsonVersions(json)
        case Err(e) => Err(e)
        case Ok(versions) =>
          match Items(expected)
          case Err(e) => Err(e)
          case Ok(es) =>
            match NodeIssuesFrom(versions, lock, es, 0, [])
            case Err(e) => Err(e)
            case Ok(issues) => Ok(issues + ExtrasIssue(NodeExtrasPrefix, Extras(Keys(versions), Keys(es))))
  }

  method VerifyNodeDependencies(metadata: Value, json: Option<Value>, lock: Option<Value>) returns (r: Result<seq<string>, Error>)
    ensures r == NodeIssuesOf(metadata, json, lock)
  {
    var raw := DictGet(metadata, "node_dependencies");
    if raw.Err? {
      return Err(raw.error);
    }
    var expected := OrEmpty(raw.value);
    if !Truthy(expected) {
      return Ok([NoNodeDependencies]);
    }
    var loaded := PackageJsonVersions(json);
    if loaded.Err? {
      return Err(loaded.error);
    }
    var versions := loaded.value;
    var items := Items(expected);
    if items.Err? {
      return Err(items.error);
    }
    var es := items.value;
    var checked := CheckNodePins(versions, lock, es);
    if checked.Err? {
      return Err(checked.error);
    }
    var issues := checked.value;
    var extras := Extras(Keys(versions), Keys(es));
    if extras != [] {
      issues := issues + [ExtrasMessage(NodeExtrasPrefix, extras)];
    } else {
      assert issues + ExtrasIssue(NodeExtrasPrefix, extras) == issues;
    }
    r := Ok(issues);
  }

  /** `verify_node_dependencies`'s loop over the declared dependencies. */
  method CheckNodePins(versions: seq<(string, Value)>, lock: Option<Value>, es: seq<(string, Value)>) returns (r: Result<seq<string>, Error>)
    ensures r == NodeIssuesFrom(versions, lock, es, 0, [])
  {
    var issues: seq<string> := [];
    var i := 0;
    while i < |es|
      invariant 0 <= i <= |es|
      invariant NodeIssuesFrom(versions, lock, es, i, issues) == NodeIssuesFrom(versions, lock, es, 0, [])
    {
      var x := CheckNodePin(versions, lock, es[i]);
      if x.Err? {
        return Err(x.error);
      }
      issues := issues + x.value;
      i := i + 1;
    }
    r := Ok(issues);
  }

  /** One declared node dependency: missing, pinned differently, or recorded differently in the lock file. */
  method CheckNodePin(versions: seq<(string, Value)>, lock: Option<Value>, e: (string, Value)) returns (r: Result<seq<string>, Error>)
    ensures r == NodeIssue(versions, lock, e)
  {
    var (name, version) := e;
    var recorded := Recorded(versions, name);
    if recorded.None? {
      return Ok([NodeMissing(name, version)]);
    }
    if recorded.value != version {
      return Ok([NodeWrongPin(name, recorded.value, version)]);
    }
    var lockVersion := LockVersion(lock, name);
    if lockVersion.Err? {
      return Err(lockVersion.error);
    }
    if VStr(lockVersion.value) != version {
      return Ok([LockMismatch(name, lockVersion.value, version)]);
    }
    r := Ok([]);
  }

  /**
   * The lock file is read only for a dependency whose package.json version
   * matches the declared one: for any other dependency the verdict is the
   * same whatever the lock file holds, even when it is missing.  For a
   * matching one, a different lock version is one issue and an equal one none.
   */
  lemma LockOnlyWhenPinned(versions: seq<(string, Value)>, lock: Option<Value>, lock': Option<Value>, e: (string, Value))
    ensures Recorded(versions, e.0) != Some(e.1) ==> NodeIssue(versions, lock, e) == NodeIssue(versions, lock', e)
    ensures Recorded(versions, e.0) != Some(e.1) ==> NodeIssue(versions, lock, e).Ok? && |NodeIssue(versions, lock, e).value| == 1
    ensures Recorded(versions, e.0) == Some(e.1) && LockVersion(lock, e.0).Ok? ==>
              NodeIssue(versions, lock, e).Ok?
              && (NodeIssue(versions, lock, e).value == [] <==> VStr(LockVersion(lock, e.0).value) == e.1)
    ensures Recorded(versions, e.0) == Some(e.1) && LockVersion(lock, e.0).Err? ==>
              NodeIssue(versions, lock, e) == Err(LockVersion(lock, e.0).error)
  {
  }

  /**
   * A declared dependency that package.json lists with the declared version
   * and that the lock file records with the same version gives no issue.
   */
  lemma AgreeingPinIsClean(versions: seq<(string, Value)>, lock: Option<Value>, e: (string, Value),
                           packages: Value, entry: Value, v: string)
    requires lock.Some? && lock.value.VDict? && Lookup(lock.value.entries, "packages") == Some(packages)
    requires packages.VDict? && Lookup(packages.entries, "node_modules/" + e.0) == Some(entry)
    requires entry.VDict? && Lookup(entry.entries, "version") == Some(VStr(v)) && Strip(v) == v
    requires Lookup(versions, e.0) == Some(VStr(v)) && e.1 == VStr(v)
    ensures LockVersion(lock, e.0) == Ok(v)
    ensures NodeIssue(versions, lock, e) == Ok([])
  {
  }

  /** A declared dependency that package.json does not list, or lists as null, is one "missing" issue. */
  lemma NullCountsAsMissing(versions: seq<(string, Value)>, lock: Option<Value>, e: (string, Value))
    requires Lookup(versions, e.0) == Some(VNone)
    ensures NodeIssue(versions, lock, e) == Ok([NodeMissing(e.0, e.1)])
  {
  }

  // -------------------------------------------------------------------- main

  /** What the check reads: the three files (the JSON ones parsed) and the tools' outputs. */
  datatype World = World(
    bookRequirements: Option<string>, requirements: Option<string>,
    packageJson: Option<Value>, packageLock: Option<Value>, probes: Probes)

  /** `main`: the failures of the three verifiers in order, or the first error raised. */
  function Outcome(w: World, yaml: string -> Value, parse: string -> Option<Version>): Result<seq<string>, Error>
  {
    match LoadFrontMatter(w.bookRequirements, yaml)
    case Err(e) => Err(e)
    case Ok(metadata) =>
      match ToolIssuesOf(metadata, w.probes, parse)
      case Err(e) => Err(e)
      case Ok(tools) =>
        match PythonIssuesOf(metadata, w.requirements)
        case Err(e) => Err(e)
        case Ok(python) =>
          match NodeIssuesOf(metadata, w.packageJson, w.packageLock)
          case Err(e) => Err(e)
          case Ok(node) => Ok(tools + python + node)
  }

  /** `main` with the `__main__` guard: exit status 1 for a raised error or any failure, 0 otherwise. */
  method RunMain(w: World, yaml: string -> Value, parse: string -> Option<Version>) returns (exitCode: int, failures: seq<string>)
    ensures exitCode == 0 <==> Outcome(w, yaml, parse) == Ok([])
    ensures exitCode == 0 || exitCode == 1
    ensures Outcome(w, yaml, parse).Ok? ==> failures == Outcome(w, yaml, parse).value
  {
    var loaded := LoadFrontMatterFile(w.bookRequirements, yaml);
    if loaded.Err? {
      return 1, [];
    }
    var metadata := loaded.value;
    var tools := VerifyToolVersions(metadata, w.probes, parse);
    if tools.Err? {
      return 1, [];
    }
    var python := VerifyPythonDependencies(metadata, w.requirements);
    if python.Err? {
      return 1, [];
    }
    var node := VerifyNodeDependencies(metadata, w.packageJson, w.packageLock);
    if node.Err? {
      return 1, [];
    }
    failures := tools.value + python.value + node.value;
    exitCode := if failures != [] then 1 else 0;
  }

  /**
   * The run succeeds exactly when the front matter loads, no verifier
   * raises, and none of the three reports an issue; front matter that
   * declares no dependencies at all therefore always fails.
   */
  lemma MainSucceedsIff(w: World, yaml: string -> Value, parse: string -> Option<Version>)
    ensures Outcome(w, yaml, parse) == Ok([]) <==>
              LoadFrontMatter(w.bookRequirements, yaml).Ok?
              && var m := LoadFrontMatter(w.bookRequirements, yaml).value;
                 ToolIssuesOf(m, w.probes, parse) == Ok([])
                 && PythonIssuesOf(m, w.requirements) == Ok([])
                 && NodeIssuesOf(m, w.packageJson, w.packageLock) == Ok([])
    ensures LoadFrontMatter(w.bookRequirements, yaml) == Ok(VDict([])) ==> Outcome(w, yaml, parse) != Ok([])
  {
    var l := LoadFrontMatter(w.bookRequirements, yaml);
    if l.Ok? {
      var m := l.value;
      var t := ToolIssuesOf(m, w.probes, parse);
      var p := PythonIssuesOf(m, w.requirements);
      var n := NodeIssuesOf(m, w.packageJson, w.packageLock);
      if t.Ok? && p.Ok? && n.Ok? {
        assert Outcome(w, yaml, parse) == Ok(t.value + p.value + n.value);
        assert |t.value + p.value + n.value| == |t.value| + |p.value| + |n.value|;
      }
    }
    if LoadFrontMatter(w.bookRequirements, yaml) == Ok(VDict([])) {
      var m := VDict([]);
      NoneDeclared(m, w.probes, parse);
      assert |ToolIssuesOf(m, w.probes, parse).value| == 4;
    }
  }
}
