/**
 * The brand compliance validator for Mermaid diagrams: it reports inline
 * theme blocks, American spellings as whole words in any case, emoji and
 * `:::kv-*` classes outside the six brand classes, keeps the issues of each
 * failing file, and exits 1 exactly when some file has an issue.
 */
module DiagramBranding {
  import opened Wrappers
  import opened Str
  import Seqs

  /** The issues the four checks report; the message wording is fixed by each kind. */
  datatype Issue =
    | InlineTheme(line: nat)
    | AmericanSpelling(line: nat, found: string, british: string)
    | Emoji(line: nat, emojis: seq<char>)
    | InvalidClass(line: nat, name: string)

  /** `content[:pos].count('\n') + 1`: the 1-based line of a position. */
  function LineOf(s: string, pos: nat): (n: nat)
    requires pos <= |s|
    ensures n >= 1
  {
    CountSub(s[..pos], "\n") + 1
  }

  // ------------------------------------------------------ inline theme

  /** The opening of an inline theme block. */
  const ThemeMarker: string := "%%{init:"

  function ThemeAt(n: nat, line: string): seq<Issue>
  {
    if Contains(line, ThemeMarker) then [InlineTheme(n)] else []
  }

  /** `check_inline_theme`: one issue per line holding `%%{init:`, numbered from 1. */
  method CheckInlineTheme(content: string) returns (issues: seq<Issue>)
    ensures issues == Seqs.FlatMapIndexed(Split(content, '\n'), ThemeAt)
  {
    var lines := Split(content, '\n');
    issues := [];
    for i := 0 to |lines|
      invariant issues == Seqs.FlatMapIndexed(lines[..i], ThemeAt)
    {
      Seqs.PrefixSnoc(lines, i);
      Seqs.FlatMapIndexedSnoc(lines[..i], lines[i], ThemeAt);
      if Contains(lines[i], ThemeMarker) {
        issues := issues + [InlineTheme(i + 1)];
      }
    }
    Seqs.PrefixAll(lines);
  }

  /** A reported line holds an inline theme block. */
  lemma ThemeIssueSource(lines: seq<string>, n: nat)
    requires InlineTheme(n) in Seqs.FlatMapIndexed(lines, ThemeAt)
    ensures 1 <= n <= |lines| && Contains(lines[n - 1], ThemeMarker)
  {
    var k := Seqs.FlatMapIndexedSource(lines, ThemeAt, InlineTheme(n));
    ThemeAtHolds(k + 1, lines[k], n);
  }

  lemma ThemeAtHolds(m: nat, line: string, n: nat)
    requires InlineTheme(n) in ThemeAt(m, line)
    ensures m == n && Contains(line, ThemeMarker)
  {
  }

  /** A line holding an inline theme block is reported. */
  lemma ThemeIssueReported(lines: seq<string>, k: nat)
    requires k < |lines| && Contains(lines[k], ThemeMarker)
    ensures InlineTheme(k + 1) in Seqs.FlatMapIndexed(lines, ThemeAt)
  {
    assert ThemeAt(k + 1, lines[k]) == [InlineTheme(k + 1)];
    Seqs.FlatMapIndexedMember(lines, ThemeAt, k, InlineTheme(k + 1));
  }

  // ------------------------------------------------------ American spelling

  /** `AMERICAN_SPELLINGS`, in its order: each American word with its British form. */
  const AmericanSpellings: seq<(string, string)> := [
    ("organization", "organisation"), ("organizations", "organisations"),
    ("organizational", "organisational"), ("optimize", "optimise"),
    ("optimized", "optimised"), ("optimizing", "optimising"),
    ("optimization", "optimisation"), ("optimizations", "optimisations"),
    ("optimizer", "optimiser"), ("color", "colour"), ("colors", "colours"),
    ("colored", "coloured"), ("colorize", "colourise"), ("center", "centre"),
    ("centered", "centred"), ("centers", "centres"), ("behavior", "behaviour"),
    ("behavioral", "behavioural"), ("behaviors", "behaviours"),
    ("digitization", "digitisation"), ("digitalization", "digitalisation"),
    ("containerization", "containerisation"), ("modernization", "modernisation"),
    ("standardization", "standardisation")
  ]

  /**
   * `\bword\b` with IGNORECASE matches at `i`: the characters there lower to
   * the word's, and neither neighbour is a word character.
   */
  predicate WordAt(s: string, w: string, i: nat)
  {
    i + |w| <= |s|
    && (forall k :: 0 <= k < |w| ==> LowerChar(s[i + k]) == w[k])
    && (i == 0 || !IsWordChar(s[i - 1]))
    && (i + |w| == |s| || !IsWordChar(s[i + |w|]))
  }

  /**
   * `finditer` from position `i`: a match at `i` is reported and the search
   * resumes at its end, otherwise one position later.
   */
  function SpellingHits(s: string, w: string, british: string, i: nat): (r: seq<Issue>)
    decreases |s| - i
  {
    if i + |w| > |s| || |w| == 0 then []
    else if WordAt(s, w, i) then [HitAt(s, w, british, i)] + SpellingHits(s, w, british, i + |w|)
    else SpellingHits(s, w, british, i + 1)
  }

  /** The issue for a match of `w` at `p`: its line, the text as it appears there, and the British form. */
  function HitAt(s: string, w: string, british: string, p: nat): Issue
    requires p + |w| <= |s|
  {
    AmericanSpelling(LineOf(s, p), s[p..p + |w|], british)
  }

  /** `x` is the issue of some match at or after `i`. */
  ghost predicate HitFrom(s: string, w: string, british: string, x: Issue, i: nat)
  {
    exists p: nat :: i <= p && WordAt(s, w, p) && x == HitAt(s, w, british, p)
  }

  /** Two matches of a word of word characters cannot overlap: the later one would follow a word character. */
  lemma NoOverlap(s: string, w: string, q: nat, p: nat)
    requires forall k :: 0 <= k < |w| ==> IsWordChar(w[k])
    requires WordAt(s, w, q) && WordAt(s, w, p) && q < p
    ensures q + |w| <= p
  {
    if p < q + |w| {
      var c := s[p - 1];
      assert LowerChar(c) == w[p - 1 - q];
      assert IsWordChar(c);
    }
  }

  /** No match starting before a match's end runs past it. */
  lemma ResumeAfterMatch(s: string, w: string, i: nat)
    requires forall k :: 0 <= k < |w| ==> IsWordChar(w[k])
    requires WordAt(s, w, i)
    ensures forall q :: i < q < i + |w| ==> !WordAt(s, w, q)
  {
    forall q | i < q < i + |w| && WordAt(s, w, q) ensures false {
      NoOverlap(s, w, i, q);
    }
  }

  /** Every whole-word occurrence from `i` on is reported. */
  lemma {:induction false} SpellingFound(s: string, w: string, british: string, i: nat, p: nat)
    requires w != [] && forall k :: 0 <= k < |w| ==> IsWordChar(w[k])
    requires i <= p && WordAt(s, w, p)
    requires forall q :: 0 <= q < i && WordAt(s, w, q) ==> q + |w| <= i
    ensures HitAt(s, w, british, p) in SpellingHits(s, w, british, i)
    decreases |s| - i
  {
    if i < p {
      if WordAt(s, w, i) {
        NoOverlap(s, w, i, p);
        ResumeAfterMatch(s, w, i);
        SpellingFound(s, w, british, i + |w|, p);
      } else {
        SpellingFound(s, w, british, i + 1, p);
      }
    }
  }

  /** Every reported issue is that of a whole-word occurrence at or after `i`. */
  lemma {:induction false} SpellingHitsSound(s: string, w: string, british: string, i: nat, x: Issue)
    requires x in SpellingHits(s, w, british, i)
    ensures HitFrom(s, w, british, x, i)
    decreases |s| - i
  {
    if WordAt(s, w, i) && x == HitAt(s, w, british, i) {
    } else if WordAt(s, w, i) {
      SpellingHitsSound(s, w, british, i + |w|, x);
      var p: nat :| i + |w| <= p && WordAt(s, w, p) && x == HitAt(s, w, british, p);
    } else {
      SpellingHitsSound(s, w, british, i + 1, x);
      var p: nat :| i + 1 <= p && WordAt(s, w, p) && x == HitAt(s, w, british, p);
    }
  }

  /** The issues of one table entry are exactly its whole-word occurrences. */
  lemma SpellingHitsIff(s: string, w: string, british: string, x: Issue)
    requires w != [] && forall k :: 0 <= k < |w| ==> IsWordChar(w[k])
    ensures x in SpellingHits(s, w, british, 0) <==> HitFrom(s, w, british, x, 0)
  {
    if HitFrom(s, w, british, x, 0) {
      var p: nat :| WordAt(s, w, p) && x == HitAt(s, w, british, p);
      SpellingFound(s, w, british, 0, p);
    }
    if x in SpellingHits(s, w, british, 0) {
      SpellingHitsSound(s, w, british, 0, x);
    }
  }

  function EntryHits(s: string): ((string, string)) -> seq<Issue>
  {
    (e: (string, string)) => SpellingHits(s, e.0, e.1, 0)
  }

  /** `check_american_spelling` over a table, entry by entry in table order. */
  function SpellingIssues(s: string, table: seq<(string, string)>): seq<Issue>
  {
    Seqs.FlatMap(table, EntryHits(s))
  }

  /** One step of `finditer`, at position `i`. */
  lemma HitsAt(s: string, w: string, british: string, i: nat)
    requires i + |w| <= |s| && |w| > 0
    ensures SpellingHits(s, w, british, i) ==
              if WordAt(s, w, i) then [HitAt(s, w, british, i)] + SpellingHits(s, w, british, i + |w|)
              else SpellingHits(s, w, british, i + 1)
  {
  }

  /** The matches of one word, found by scanning the text. */
  method FindWord(s: string, w: string, british: string) returns (found: seq<Issue>)
    ensures found == SpellingHits(s, w, british, 0)
  {
    found := [];
    if |w| == 0 {
      return;
    }
    var i := 0;
    while i + |w| <= |s|
      invariant found + SpellingHits(s, w, british, i) == SpellingHits(s, w, british, 0)
      decreases |s| - i
    {
      HitsAt(s, w, british, i);
      if WordAt(s, w, i) {
        var hit := AmericanSpelling(LineOf(s, i), s[i..i + |w|], british);
        Seqs.AppendAssoc(found, [hit], SpellingHits(s, w, british, i + |w|));
        found := found + [hit];
        i := i + |w|;
      } else {
        i := i + 1;
      }
    }
    assert found + [] == found;
  }

  /** `check_american_spelling`: each table entry in turn, each of its matches in text order. */
  method CheckAmericanSpelling(content: string, table: seq<(string, string)>) returns (issues: seq<Issue>)
    ensures issues == SpellingIssues(content, table)
  {
    issues := [];
    for t := 0 to |table|
      invariant issues == Seqs.FlatMap(table[..t], EntryHits(content))
    {
      Seqs.PrefixSnoc(table, t);
      Seqs.FlatMapSnoc(table[..t], table[t], EntryHits(content));
      var found := FindWord(content, table[t].0, table[t].1);
      issues := issues + found;
    }
    Seqs.PrefixAll(table);
  }

  // ------------------------------------------------------ emoji

  /** The ten alternatives of `EMOJI_PATTERN`, as written. */
  predicate IsEmoji(c: char)
  {
    ('\U{1F300}' <= c <= '\U{1F9FF}') || ('\U{1F600}' <= c <= '\U{1F64F}')
    || ('\U{1F680}' <= c <= '\U{1F6FF}') || ('\U{2600}' <= c <= '\U{27BF}')
    || ('\U{1F1E0}' <= c <= '\U{1F1FF}') || ('\U{2700}' <= c <= '\U{27BF}')
    || ('\U{1F900}' <= c <= '\U{1F9FF}') || c == '\U{2B50}' || c == '\U{2764}'
    || ('\U{1F3FB}' <= c <= '\U{1F3FF}')
  }

  /** The ten alternatives cover four disjoint blocks: the others lie inside the first or the fourth. */
  lemma EmojiBlocks(c: char)
    ensures IsEmoji(c) <==>
              ('\U{1F300}' <= c <= '\U{1F9FF}') || ('\U{2600}' <= c <= '\U{27BF}')
              || ('\U{1F1E0}' <= c <= '\U{1F1FF}') || c == '\U{2B50}'
  {
  }

  /** `EMOJI_PATTERN.findall(line)`: every emoji character of the line, in order. */
  function EmojisIn(line: string): seq<char>
  {
    Seqs.Filter(line, IsEmoji)
  }

  function EmojiAt(n: nat, line: string): seq<Issue>
  {
    if EmojisIn(line) != [] then [Emoji(n, EmojisIn(line))] else []
  }

  /** `check_emojis`: one issue per line holding an emoji, listing them. */
  method CheckEmojis(content: string) returns (issues: seq<Issue>)
    ensures issues == Seqs.FlatMapIndexed(Split(content, '\n'), EmojiAt)
  {
    var lines := Split(content, '\n');
    issues := [];
    for i := 0 to |lines|
      invariant issues == Seqs.FlatMapIndexed(lines[..i], EmojiAt)
    {
      Seqs.PrefixSnoc(lines, i);
      Seqs.FlatMapIndexedSnoc(lines[..i], lines[i], EmojiAt);
      var found := Seqs.Filter(lines[i], IsEmoji);
      if found != [] {
        issues := issues + [Emoji(i + 1, found)];
      }
    }
    Seqs.PrefixAll(lines);
  }

  predicate HasEmoji(line: string) { exists i :: 0 <= i < |line| && IsEmoji(line[i]) }

  /** A reported line holds an emoji, and the issue lists that line's emoji. */
  lemma EmojiIssueSource(lines: seq<string>, x: Issue)
    requires x in Seqs.FlatMapIndexed(lines, EmojiAt) && x.Emoji?
    ensures 1 <= x.line <= |lines| && HasEmoji(lines[x.line - 1]) && x.emojis == EmojisIn(lines[x.line - 1])
  {
    var k := Seqs.FlatMapIndexedSource(lines, EmojiAt, x);
    var line := lines[k];
    assert EmojisIn(line) != [] && x == Emoji(k + 1, EmojisIn(line));
    EmojiFound(line);
  }

  /** A line whose emoji list is not empty holds an emoji. */
  lemma EmojiFound(line: string)
    requires EmojisIn(line) != []
    ensures HasEmoji(line)
  {
    var c := EmojisIn(line)[0];
    assert c in EmojisIn(line);
    var i :| 0 <= i < |line| && line[i] == c;
  }

  /** A line holding an emoji is reported with its emoji. */
  lemma EmojiIssueReported(lines: seq<string>, k: nat)
    requires k < |lines| && HasEmoji(lines[k])
    ensures Emoji(k + 1, EmojisIn(lines[k])) in Seqs.FlatMapIndexed(lines, EmojiAt)
  {
    var line := lines[k];
    var i :| 0 <= i < |line| && IsEmoji(line[i]);
    assert line[i] in EmojisIn(line);
    assert EmojiAt(k + 1, line) == [Emoji(k + 1, EmojisIn(line))];
    Seqs.FlatMapIndexedMember(lines, EmojiAt, k, Emoji(k + 1, EmojisIn(line)));
  }

  // ------------------------------------------------------ CSS classes

  /** The brand classes. */
  const ValidClasses: seq<string> := ["kv-primary", "kv-accent", "kv-highlight", "kv-muted", "kv-pattern", "kv-outline"]

  /** `[a-zA-Z0-9_-]`. */
  predicate IsClassChar(c: char) { IsAsciiUpper(c) || IsAsciiLower(c) || IsDigit(c) || c == '_' || c == '-' }

  /** A class is reported when it claims the brand prefix without being a brand class. */
  predicate Flagged(name: string) { StartsWith(name, "kv-") && name !in ValidClasses }

  /** The match of `:::([a-zA-Z0-9_-]+)` at `i`: the class name and the end of the match. */
  function ClassMatchAt(s: string, i: nat): (m: Option<(string, nat)>)
    ensures m.Some? ==> i + 4 <= m.value.1 <= |s| && m.value.0 == s[i + 3..m.value.1]
  {
    if OccursAt(s, ":::", i) && i + 3 < |s| && IsClassChar(s[i + 3]) then
      var k := Span(s[i + 3..], IsClassChar);
      Some((s[i + 3..i + 3 + k], i + 3 + k))
    else None
  }

  /** `check_css_classes` from position `i`: each class match in turn, the flagged ones reported. */
  function CssFrom(s: string, i: nat): (r: seq<Issue>)
    ensures forall x :: x in r ==> x.InvalidClass? && Flagged(x.name)
    decreases |s| - i
  {
    if i >= |s| then []
    else match ClassMatchAt(s, i) {
      case Some((name, e)) => (if Flagged(name) then [InvalidClass(LineOf(s, i), name)] else []) + CssFrom(s, e)
      case None => CssFrom(s, i + 1)
    }
  }

  /** The brand classes themselves and names without the prefix are never reported. */
  lemma FlaggedIff(name: string)
    ensures Flagged(name) <==> |name| >= 3 && name[..3] == "kv-" && forall k :: 0 <= k < 6 ==> name != ValidClasses[k]
  {
  }

  /** `check_css_classes`, as a scan over the text. */
  method CheckCssClasses(content: string) returns (issues: seq<Issue>)
    ensures issues == CssFrom(content, 0)
  {
    issues := [];
    var i := 0;
    while i < |content|
      invariant issues + CssFrom(content, i) == CssFrom(content, 0)
      decreases |content| - i
    {
      match ClassMatchAt(content, i) {
        case Some((name, e)) =>
          var found := if Flagged(name) then [InvalidClass(LineOf(content, i), name)] else [];
          Seqs.AppendAssoc(issues, found, CssFrom(content, e));
          issues := issues + found;
          i := e;
        case None =>
          i := i + 1;
      }
    }
    assert issues + [] == issues;
  }

  // ------------------------------------------------------ the validator

  /** The four checks in order: theme, spelling, emoji, CSS. */
  function AllIssues(content: string, table: seq<(string, string)>): seq<Issue>
  {
    Seqs.FlatMapIndexed(Split(content, '\n'), ThemeAt) + SpellingIssues(content, table)
    + Seqs.FlatMapIndexed(Split(content, '\n'), EmojiAt) + CssFrom(content, 0)
  }

  /** A file passes when it can be read and no check reports. */
  predicate Passes(content: Option<string>, table: seq<(string, string)>)
  {
    content.Some? && AllIssues(content.value, table) == []
  }

  /** A file's issues are stored when it can be read and some check reports. */
  predicate Reports(content: Option<string>, table: seq<(string, string)>)
  {
    content.Some? && AllIssues(content.value, table) != []
  }

  /** `BrandComplianceValidator`: the spelling table and the issues of each failing file, by path. */
  class Validator {
    const spellings: seq<(string, string)>
    var issues: map<string, seq<Issue>>

    /** The stored lists are never empty and are what the checks report for that file. */
    ghost predicate Valid()
      reads this
    {
      forall p :: p in issues ==> issues[p] != []
    }

    constructor (spellings: seq<(string, string)>)
      ensures Valid() && this.spellings == spellings && issues == map[]
    {
      this.spellings := spellings;
      issues := map[];
    }

    /**
     * `validate_file`, given the file's text or `None` when reading it fails:
     * false for a read error (nothing is stored) or when some check reports,
     * and then the issues are stored under the path.
     */
    method ValidateFile(path: string, content: Option<string>) returns (ok: bool)
      requires Valid()
      modifies this
      ensures Valid()
      ensures ok <==> Passes(content, spellings)
      ensures issues == if Reports(content, spellings)
                        then old(issues)[path := AllIssues(content.value, spellings)]
                        else old(issues)
    {
      if content.None? {
        return false;
      }
      var text := content.value;
      var theme := CheckInlineTheme(text);
      var spelling := CheckAmericanSpelling(text, spellings);
      var emojis := CheckEmojis(text);
      var css := CheckCssClasses(text);
      var fileIssues := theme + spelling + emojis + css;
      if fileIssues != [] {
        issues := issues[path := fileIssues];
        return false;
      }
      return true;
    }

    /** `print_report`'s exit status: 0 exactly when no issue is stored. */
    method PrintReport() returns (exitCode: int)
      ensures exitCode == (if issues == map[] then 0 else 1)
    {
      if issues == map[] {
        return 0;
      }
      return 1;
    }
  }

  /** A file to validate: its path and its text, `None` when it cannot be read. */
  datatype DiagramFile = DiagramFile(path: string, content: Option<string>)

  function FailsWith(table: seq<(string, string)>): DiagramFile -> bool
  {
    (f: DiagramFile) => !Passes(f.content, table)
  }

  /**
   * `main` after the files are chosen: no file exits 0; otherwise each is
   * validated, `passed` and `failed` are counted and the report decides.
   */
  /** No file among the first `i` has issues stored. */
  predicate NoneReported(files: seq<DiagramFile>, table: seq<(string, string)>, i: nat)
    requires i <= |files|
  {
    forall k :: 0 <= k < i ==> !Reports(files[k].content, table)
  }

  lemma NoneReportedStep(files: seq<DiagramFile>, table: seq<(string, string)>, i: nat)
    requires i < |files|
    ensures NoneReported(files, table, i + 1) <==> NoneReported(files, table, i) && !Reports(files[i].content, table)
  {
  }

  method Run(files: seq<DiagramFile>, table: seq<(string, string)>) returns (exitCode: int, passed: nat, failed: nat)
    ensures passed + failed == |files|
    ensures failed == |Seqs.Filter(files, FailsWith(table))|
    ensures exitCode == 1 <==> exists k :: 0 <= k < |files| && Reports(files[k].content, table)
    ensures exitCode == 0 || exitCode == 1
  {
    if files == [] {
      return 0, 0, 0;
    }
    var validator := new Validator(table);
    passed, failed := 0, 0;
    var fails := FailsWith(table);
    for i := 0 to |files|
      invariant validator.Valid() && validator.spellings == table
      invariant passed + failed == i
      invariant failed == |Seqs.Filter(files[..i], fails)|
      invariant validator.issues == map[] <==> NoneReported(files, table, i)
    {
      Seqs.PrefixSnoc(files, i);
      Seqs.FilterSnoc(files[..i], files[i], fails);
      var ok := validator.ValidateFile(files[i].path, files[i].content);
      NoneReportedStep(files, table, i);
      if Reports(files[i].content, table) {
        assert files[i].path in validator.issues;
      }
      if ok {
        passed := passed + 1;
      } else {
        failed := failed + 1;
      }
    }
    Seqs.PrefixAll(files);
    exitCode := validator.PrintReport();
    assert NoneReported(files, table, |files|) <==> forall k :: 0 <= k < |files| ==> !Reports(files[k].content, table);
  }

  /** An unreadable file counts as failed, yet the run exits 0 because nothing is stored for it. */
  method UnreadableFilePasses(path: string) returns (exitCode: int, failed: nat)
    ensures exitCode == 0 && failed == 1
  {
    var files := [DiagramFile(path, None)];
    var passed;
    exitCode, passed, failed := Run(files, AmericanSpellings);
    assert !Reports(files[0].content, AmericanSpellings);
  }
}
