/**
 * The figure caption check: an italic caption line `*Figure X.Y ...` outside
 * fenced blocks must spell "Figure" with an uppercase F; files whose path
 * contains "archive" are not checked.
 */
module FigureCaptions {
  import opened Wrappers
  import opened Str
  import Seqs
  import FencedScan

  const CaptionWord := "igure"

  /** The caption number `\s+\d+\.\d+` starts `s`. */
  predicate NumberFollows(s: string)
  {
    var gap := Span(s, IsSpace);
    var after := s[gap..];
    var whole := Span(after, IsDigit);
    gap >= 1 && whole >= 1 && whole + 1 < |after| && after[whole] == '.' && IsDigit(after[whole + 1])
  }

  /** The first letter of group 1 of `^\*([Ff]igure)\s+\d+\.\d+` matched at the start of `line`, or `None`. */
  function CaptionLetter(line: string): (r: Option<char>)
    ensures r.Some? ==> r.value in "Ff" && StartsWith(line, "*") && OccursAt(line, CaptionWord, 2)
  {
    if |line| >= 7 && line[0] == '*' && line[1] in "Ff" && line[2..7] == CaptionWord && NumberFollows(line[7..])
    then Some(line[1])
    else None
  }

  /** `is_figure_caption_properly_capitalized`: lines that are no caption pass; a caption needs its F uppercase. */
  predicate IsCaptionProperlyCapitalized(line: string)
  {
    match CaptionLetter(line)
    case None => true
    case Some(letter) => IsUpper(letter)
  }

  /** A caption fails exactly when it is spelled with a lowercase f. */
  lemma ProperIff(line: string)
    ensures !IsCaptionProperlyCapitalized(line) <==> CaptionLetter(line) == Some('f')
  {
  }

  /** The line test inside `check_file`: a rstripped line starting with `*`, containing "igure", and not properly capitalized. */
  predicate BadCaption(stripped: string)
  {
    StartsWith(stripped, "*") && Contains(stripped, CaptionWord) && !IsCaptionProperlyCapitalized(stripped)
  }

  /** The preliminary filter on `*` and "igure" rejects no failing caption. */
  lemma FilterImplied(stripped: string)
    ensures BadCaption(stripped) <==> !IsCaptionProperlyCapitalized(stripped)
  {
    if CaptionLetter(stripped).Some? {
      ContainsAt(stripped, CaptionWord, 2);
    }
  }

  /** `*figure` followed by a caption number fails; `*Figure` followed by one passes. */
  lemma CaptionSpelling(number: string)
    requires NumberFollows(number)
    ensures !IsCaptionProperlyCapitalized("*f" + CaptionWord + number)
    ensures IsCaptionProperlyCapitalized("*F" + CaptionWord + number)
  {
    var lower := "*f" + CaptionWord + number;
    var upper := "*F" + CaptionWord + number;
    assert lower[2..7] == CaptionWord && lower[7..] == number;
    assert upper[2..7] == CaptionWord && upper[7..] == number;
  }

  /** The issues of one file; a file that cannot be read yields none. */
  function FileIssues(content: Option<string>): seq<(nat, string)>
  {
    match content
    case None => []
    case Some(text) => FencedScan.Issues(FileLines(text), BadCaption)
  }

  /** `check_file`, reading the lines of one file. */
  method CheckFile(content: Option<string>) returns (issues: seq<(nat, string)>)
    ensures issues == FileIssues(content)
  {
    if content.None? {
      return [];
    }
    var lines := FileLines(content.value);
    issues := FencedScan.ScanLines(lines, BadCaption);
  }

  /** Every issue names a lowercase caption outside fenced blocks, in file order. */
  lemma FileIssuesFlagged(content: Option<string>)
    ensures var issues := FileIssues(content);
      forall k :: 0 <= k < |issues| ==> CaptionLetter(issues[k].1) == Some('f')
    ensures var issues := FileIssues(content);
      forall j, k :: 0 <= j < k < |issues| ==> issues[j].0 < issues[k].0
  {
    if content.Some? {
      var lines := FileLines(content.value);
      var issues := FileIssues(content);
      FencedScan.IssuesOrdered(lines, BadCaption);
      forall k | 0 <= k < |issues|
        ensures CaptionLetter(issues[k].1) == Some('f')
      {
        assert issues[k] in issues;
        FencedScan.IssuesIff(lines, BadCaption, issues[k].0, issues[k].1);
        ProperIff(issues[k].1);
      }
    }
  }

  /** A file under an archive directory is not checked. */
  predicate Checked(file: (string, Option<string>)) { !Contains(file.0, "archive") }

  /** `check_file` reports something for this file. */
  predicate HasIssues(file: (string, Option<string>)) { FileIssues(file.1) != [] }

  /** Some checked file has an issue. */
  predicate AnyIssues(files: seq<(string, Option<string>)>)
  {
    exists k :: 0 <= k < |files| && Checked(files[k]) && HasIssues(files[k])
  }

  /** One pass of the loop of `main`: the file's issues are added up and the file is counted when it has any. */
  method TallyFile(file: (string, Option<string>), totalIssues: nat, filesWithIssues: nat) returns (totalIssues': nat, filesWithIssues': nat)
    ensures filesWithIssues' == filesWithIssues + (if HasIssues(file) then 1 else 0)
    ensures totalIssues' == totalIssues + |FileIssues(file.1)|
  {
    var issues := CheckFile(file.1);
    totalIssues', filesWithIssues' := totalIssues, filesWithIssues;
    if issues != [] {
      totalIssues' := totalIssues + |issues|;
      filesWithIssues' := filesWithIssues + 1;
    }
  }

  /** The loop of `main` over the checked files: it counts those that have issues. */
  method CountFilesWithIssues(mdFiles: seq<(string, Option<string>)>) returns (filesWithIssues: nat)
    ensures filesWithIssues == |Seqs.Filter(mdFiles, HasIssues)|
  {
    var totalIssues: nat := 0;
    filesWithIssues := 0;
    for i := 0 to |mdFiles|
      invariant filesWithIssues == |Seqs.Filter(mdFiles[..i], HasIssues)|
    {
      Seqs.PrefixSnoc(mdFiles, i);
      Seqs.FilterSnoc(mdFiles[..i], mdFiles[i], HasIssues);
      totalIssues, filesWithIssues := TallyFile(mdFiles[i], totalIssues, filesWithIssues);
    }
    Seqs.PrefixAll(mdFiles);
  }

  /** Dropping the archived files and then the clean ones leaves something exactly when a checked file has issues. */
  lemma CheckedIssues(files: seq<(string, Option<string>)>)
    ensures AnyIssues(files) <==> Seqs.Filter(Seqs.Filter(files, Checked), HasIssues) != []
  {
    var mdFiles := Seqs.Filter(files, Checked);
    var flagged := Seqs.Filter(mdFiles, HasIssues);
    if AnyIssues(files) {
      var k :| 0 <= k < |files| && Checked(files[k]) && HasIssues(files[k]);
      assert files[k] in mdFiles;
      assert files[k] in flagged;
    }
    if flagged != [] {
      assert flagged[0] in mdFiles;
      assert flagged[0] in files;
    }
  }

  /**
   * `main`: 1 when the docs directory is missing, 0 when no markdown file
   * is left once archives are dropped, otherwise 1 exactly when some
   * checked file has an issue.
   */
  method Run(docsExists: bool, files: seq<(string, Option<string>)>) returns (code: int)
    ensures code == (if !docsExists || AnyIssues(files) then 1 else 0)
  {
    if !docsExists {
      return 1;
    }
    var mdFiles := Seqs.Filter(files, Checked);
    CheckedIssues(files);
    if mdFiles == [] {
      return 0;
    }
    var filesWithIssues := CountFilesWithIssues(mdFiles);
    code := if filesWithIssues > 0 then 1 else 0;
  }
}
