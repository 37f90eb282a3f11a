/**
 * The heading capitalization check: every markdown heading outside fenced
 * blocks must begin with an uppercase letter once its hash marks and the
 * whitespace after them are skipped; headings that begin with a digit,
 * a backtick or one of a fixed set of symbols are accepted as they are.
 */
module HeadingCapitalization {
  import opened Wrappers
  import opened Str
  import FencedScan
  import Seqs

  /** Characters that exempt a heading from the check when its text starts with them. */
  const Exempt := "`0123456789#@$%^&*()[]{}|\\/<>=+-_~"

  /** `line` without the one final newline that `$` may stand before. */
  function Core(line: string): (r: string)
    ensures r == line || (line == r + "\n")
  {
    if line != [] && line[|line| - 1] == '\n' then line[..|line| - 1] else line
  }

  /**
   * The `\s+(.+)$` part of the heading pattern matched against what follows
   * the hash marks: the text after the whitespace run. `.` matches anything
   * but a newline, so the text runs to the end and holds none.
   */
  function GapText(rest: string): (r: Option<string>)
    ensures r.Some? ==> r.value != [] && '\n' !in r.value
  {
    var gap := Span(rest, IsSpace);
    if gap == 0 then None
    else if gap < |rest| then
      (if '\n' in rest[gap..] then None else Some(rest[gap..]))
    else if gap >= 2 && rest[gap - 1] != '\n' then
      // the whitespace run gives back its last character to `.+`
      assert rest[gap - 1..] == [rest[gap - 1]];
      Some(rest[gap - 1..])
    else None
  }

  /** Group 2 of `^(#+)\s+(.+)$` matched at the start of `line`, or `None` when the line does not match. */
  function HeadingText(line: string): (r: Option<string>)
    ensures r.Some? ==> r.value != [] && '\n' !in r.value && StartsWith(line, "#")
  {
    var core := Core(line);
    var hashes := Span(core, c => c == '#');
    if hashes == 0 then None
    else
      assert line[0] == '#';
      GapText(core[hashes..])
  }

  /** `is_heading_properly_capitalized`: lines that are no heading pass, exempt starts pass, letters must be uppercase. */
  predicate IsHeadingProperlyCapitalized(line: string)
  {
    match HeadingText(line)
    case None => true
    case Some(text) =>
      if text[0] in Exempt then true
      else if IsAlpha(text[0]) then IsUpper(text[0])
      else true
  }

  /** A heading fails exactly when its text starts with a lowercase letter. */
  lemma ProperIff(line: string)
    ensures IsHeadingProperlyCapitalized(line) <==>
      HeadingText(line).None? || !IsLower(HeadingText(line).value[0])
  {
    if HeadingText(line).Some? && HeadingText(line).value[0] in Exempt {
      ExemptNotLower(HeadingText(line).value[0]);
    }
  }

  lemma ExemptNotLower(c: char)
    requires c in Exempt
    ensures !IsLower(c)
  {
  }

  /** A line that does not start with `#` is never a heading and always passes. */
  lemma NonHeadingPasses(line: string)
    requires !StartsWith(line, "#")
    ensures IsHeadingProperlyCapitalized(line)
  {
  }

  /** A heading whose text starts with a letter passes exactly when the letter is uppercase. */
  lemma LetterHeading(line: string)
    requires HeadingText(line).Some? && IsAlpha(HeadingText(line).value[0])
    ensures IsHeadingProperlyCapitalized(line) <==> IsUpper(HeadingText(line).value[0])
  {
    ProperIff(line);
  }

  /** The hash marks followed by a space and a lowercase word form a failing heading. */
  lemma LowercaseHeadingFails(hashes: nat, word: string)
    requires hashes >= 1 && word != [] && IsLower(word[0]) && '\n' !in word
    ensures !IsHeadingProperlyCapitalized(seq(hashes, _ => '#') + " " + word)
  {
    var line := seq(hashes, _ => '#') + " " + word;
    assert Core(line) == line by {
      assert line[|line| - 1] == word[|word| - 1];
    }
    var rest := line[hashes..];
    assert rest == " " + word;
    assert Span(line, c => c == '#') == hashes by {
      assert line == seq(hashes, _ => '#') + rest;
      SpanOfPrefix(seq(hashes, _ => '#'), rest, c => c == '#');
    }
    assert Span(rest, IsSpace) == 1 by {
      SpanOfPrefix(" ", word, IsSpace);
    }
    assert HeadingText(line) == Some(word);
    ProperIff(line);
  }

  /** The line test inside `check_file`: a rstripped line starting with `#` that is not properly capitalized. */
  predicate BadHeading(stripped: string)
  {
    StartsWith(stripped, "#") && !IsHeadingProperlyCapitalized(stripped)
  }

  /** The issues of one file; a file that cannot be read yields none. */
  function FileIssues(content: Option<string>): seq<(nat, string)>
  {
    match content
    case None => []
    case Some(text) => FencedScan.Issues(FileLines(text), BadHeading)
  }

  /** `check_file`, reading the lines of one file. */
  method CheckFile(content: Option<string>) returns (issues: seq<(nat, string)>)
    ensures issues == FileIssues(content)
  {
    if content.None? {
      return [];
    }
    var lines := FileLines(content.value);
    issues := FencedScan.ScanLines(lines, BadHeading);
  }

  /**
   * Every issue names a line outside fenced blocks whose
   * heading starts with a lowercase letter, in file order.
   */
  lemma FileIssuesFlagged(content: Option<string>)
    ensures var issues := FileIssues(content);
      forall k :: 0 <= k < |issues| ==> !IsHeadingProperlyCapitalized(issues[k].1)
    ensures var issues := FileIssues(content);
      forall j, k :: 0 <= j < k < |issues| ==> issues[j].0 < issues[k].0
  {
    if content.Some? {
      var lines := FileLines(content.value);
      var issues := FileIssues(content);
      FencedScan.IssuesOrdered(lines, BadHeading);
      forall k | 0 <= k < |issues|
        ensures !IsHeadingProperlyCapitalized(issues[k].1)
      {
        assert issues[k] in issues;
        FencedScan.IssuesIff(lines, BadHeading, issues[k].0, issues[k].1);
      }
    }
  }

  /** `check_file` reports something for this file. */
  predicate HasIssues(content: Option<string>) { FileIssues(content) != [] }

  /** Some file has an issue. */
  predicate AnyIssues(files: seq<Option<string>>)
  {
    exists k :: 0 <= k < |files| && HasIssues(files[k])
  }

  /** One pass of the loop of `main`: the file's issues are added up and the file is counted when it has any. */
  method TallyFile(file: Option<string>, totalIssues: nat, filesWithIssues: nat) returns (totalIssues': nat, filesWithIssues': nat)
    ensures filesWithIssues' == filesWithIssues + (if HasIssues(file) then 1 else 0)
    ensures totalIssues' == totalIssues + |FileIssues(file)|
  {
    var issues := CheckFile(file);
    totalIssues', filesWithIssues' := totalIssues, filesWithIssues;
    if issues != [] {
      totalIssues' := totalIssues + |issues|;
      filesWithIssues' := filesWithIssues + 1;
    }
  }

  /** The loop of `main`: it counts the files that have issues. */
  method CountFilesWithIssues(files: seq<Option<string>>) returns (filesWithIssues: nat)
    ensures filesWithIssues == |Seqs.Filter(files, HasIssues)|
  {
    var totalIssues: nat := 0;
    filesWithIssues := 0;
    for i := 0 to |files|
      invariant filesWithIssues == |Seqs.Filter(files[..i], HasIssues)|
    {
      Seqs.PrefixSnoc(files, i);
      Seqs.FilterSnoc(files[..i], files[i], HasIssues);
      totalIssues, filesWithIssues := TallyFile(files[i], totalIssues, filesWithIssues);
    }
    Seqs.PrefixAll(files);
  }

  /**
   * `main`: 1 when the docs directory is missing, 0 when it holds no
   * markdown file, otherwise 1 exactly when some file has an issue.
   */
  method Run(docsExists: bool, files: seq<Option<string>>) returns (code: int)
    ensures code == (if !docsExists || AnyIssues(files) then 1 else 0)
  {
    if !docsExists {
      return 1;
    }
    if files == [] {
      return 0;
    }
    var filesWithIssues := CountFilesWithIssues(files);
    code := if filesWithIssues > 0 then 1 else 0;
    var flagged := Seqs.Filter(files, HasIssues);
    assert AnyIssues(files) <==> flagged != [] by {
      if AnyIssues(files) {
        var k :| 0 <= k < |files| && HasIssues(files[k]);
        assert files[k] in flagged;
      }
      if flagged != [] {
        assert flagged[0] in files;
      }
    }
  }
}
