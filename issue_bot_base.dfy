/**
 * The helpers the issue-driven bots share: the context of the GitHub issue
 * that triggered a run, file-name slugs, Markdown block quotes, and the
 * response document assembled from titled sections.
 */
module IssueBot {
  import opened Wrappers
  import opened Str
  import Seqs

  /** The issue a run answers. */
  datatype IssueContext = IssueContext(number: string, title: string, body: string, repoSlug: string)

  // ------------------------------------------------------------ issue url

  const GitHubPrefix := "https://github.com/"

  /** `issue_url`: the issue's page when the repository is known, else empty. */
  function IssueUrl(c: IssueContext): (r: string)
    ensures r == "" <==> c.repoSlug == ""
    ensures r != "" ==> StartsWith(r, GitHubPrefix + c.repoSlug + "/issues/")
  {
    if c.repoSlug != "" then GitHubPrefix + c.repoSlug + "/issues/" + c.number else ""
  }

  // ---------------------------------------------------------------- slugs

  predicate IsSlugChar(c: char) { 'a' <= c <= 'z' || '0' <= c <= '9' }

  predicate NotSlugChar(c: char) { !IsSlugChar(c) }

  predicate IsHyphen(c: char) { c == '-' }

  /** Only lower-case ASCII letters, digits and hyphens. */
  predicate SlugChars(s: string) { forall i :: 0 <= i < |s| ==> IsSlugChar(s[i]) || s[i] == '-' }

  /** No hyphen is followed by another. */
  predicate SingleHyphens(s: string) { forall i :: 0 <= i < |s| - 1 ==> !(s[i] == '-' && s[i + 1] == '-') }

  /** A non-empty slug made of letters, digits and single hyphens, with a hyphen at neither end. */
  predicate ValidSlug(s: string)
  {
    s != [] && SlugChars(s) && SingleHyphens(s) && s[0] != '-' && s[|s| - 1] != '-'
  }

  /** A slug character or a hyphen put in front keeps the slug properties, unless it makes two hyphens. */
  lemma ConsSlug(c: char, t: string)
    requires IsSlugChar(c) || c == '-'
    requires SlugChars(t) && SingleHyphens(t)
    requires c == '-' ==> t == [] || t[0] != '-'
    ensures SlugChars([c] + t) && SingleHyphens([c] + t)
  {
    var r := [c] + t;
    forall i | 0 <= i < |r| - 1
      ensures !(r[i] == '-' && r[i + 1] == '-')
    {
      if i > 0 {
        assert r[i] == t[i - 1] && r[i + 1] == t[i];
      }
    }
  }

  /** `re.sub(r"[^a-z0-9]+", "-", s)`: each maximal run of other characters becomes one hyphen. */
  function Hyphenate(s: string): (r: string)
    ensures SlugChars(r) && SingleHyphens(r)
    ensures r == [] <==> s == []
    ensures s != [] && IsSlugChar(s[0]) ==> r[0] == s[0]
    decreases |s|
  {
    if s == [] then []
    else if IsSlugChar(s[0]) then
      ConsSlug(s[0], Hyphenate(s[1..]));
      [s[0]] + Hyphenate(s[1..])
    else
      var rest := DropWhile(s, NotSlugChar);
      assert |rest| == |s| ==> rest == s;
      ConsSlug('-', Hyphenate(rest));
      "-" + Hyphenate(rest)
  }

  /** Text that already has only slug characters and single hyphens comes back unchanged. */
  lemma {:induction false} HyphenateFixed(s: string)
    requires SlugChars(s) && SingleHyphens(s)
    ensures Hyphenate(s) == s
    decreases |s|
  {
    if s != [] {
      if !IsSlugChar(s[0]) {
        DropWhileStops(s[1..], NotSlugChar);
        assert DropWhile(s, NotSlugChar) == s[1..];
      }
      HyphenateFixed(s[1..]);
    }
  }

  /** A slice of text with slug characters and single hyphens has them too. */
  lemma SliceKeepsSlug(s: string, a: nat, b: nat)
    requires a <= b <= |s| && SlugChars(s) && SingleHyphens(s)
    ensures SlugChars(s[a..b]) && SingleHyphens(s[a..b])
  {
    assert forall i :: 0 <= i < b - a ==> s[a..b][i] == s[a + i];
  }

  /** `.strip("-")`: the slice between the leading and the trailing hyphens. */
  function StripHyphens(s: string): (r: string)
    ensures r == [] || (r[0] != '-' && r[|r| - 1] != '-')
  {
    var front := DropWhile(s, IsHyphen);
    var r := DropWhileEnd(front, IsHyphen);
    assert r != [] ==> r[0] == front[0];
    r
  }

  /** Trimming hyphens keeps slug characters and single hyphens. */
  lemma StripHyphensKeeps(s: string)
    requires SlugChars(s) && SingleHyphens(s)
    ensures SlugChars(StripHyphens(s)) && SingleHyphens(StripHyphens(s))
  {
    var front := DropWhile(s, IsHyphen);
    SliceKeepsSlug(s, |s| - |front|, |s|);
    SliceKeepsSlug(front, 0, |DropWhileEnd(front, IsHyphen)|);
  }

  /** `slug[:maxLength].rstrip("-")` when the slug is longer than the limit, the slug itself otherwise. */
  function CutSlug(slug: string, maxLength: nat): (r: string)
    ensures |r| <= |slug| && r == slug[..|r|]
    ensures |r| <= maxLength || r == slug
    ensures slug != [] && slug[|slug| - 1] != '-' ==> r == [] || r[|r| - 1] != '-'
  {
    if |slug| > maxLength then DropWhileEnd(slug[..maxLength], IsHyphen) else slug
  }

  const DefaultSlugLength := 80

  /** The slug used when nothing of the value survives. */
  const FallbackSlug := "issue"

  /**
   * `slugify`: lower-case, collapse other characters to single hyphens,
   * trim hyphens, cut to `maxLength` and trim again, fall back to `issue`.
   */
  function Slugify(value: string, maxLength: nat): string
  {
    var cut := CutSlug(StripHyphens(Hyphenate(Lower(value))), maxLength);
    if cut == [] then FallbackSlug else cut
  }

  lemma FallbackValid()
    ensures ValidSlug(FallbackSlug)
  {
  }

  /** Every slug is valid and within the limit, unless it is the fallback. */
  lemma SlugifyValid(value: string, maxLength: nat)
    ensures ValidSlug(Slugify(value, maxLength))
    ensures |Slugify(value, maxLength)| <= maxLength || Slugify(value, maxLength) == FallbackSlug
  {
    var h := Hyphenate(Lower(value));
    var slug := StripHyphens(h);
    StripHyphensKeeps(h);
    var cut := CutSlug(slug, maxLength);
    SliceKeepsSlug(slug, 0, |cut|);
    if cut == [] {
      FallbackValid();
    }
  }

  /** A valid slug within the length limit is its own slug. */
  lemma SlugifyFixed(s: string, maxLength: nat)
    requires ValidSlug(s) && |s| <= maxLength
    ensures Slugify(s, maxLength) == s
  {
    assert Lower(s) == s;
    HyphenateFixed(s);
    DropWhileStops(s, IsHyphen);
    DropWhileEndStops(s, IsHyphen);
  }

  /** Slugifying twice is slugifying once, whenever the fallback fits the limit. */
  lemma SlugifyIdempotent(value: string, maxLength: nat)
    requires maxLength >= |FallbackSlug|
    ensures Slugify(Slugify(value, maxLength), maxLength) == Slugify(value, maxLength)
  {
    SlugifyValid(value, maxLength);
    SlugifyFixed(Slugify(value, maxLength), maxLength);
  }

  // ------------------------------------------------------------ blockquote

  const EmptyQuote := "> _Issue description was empty when the automation ran._"

  /** The lines of a text once its line endings are normalised. */
  function SourceLines(text: string): (r: seq<string>)
    ensures forall k :: 0 <= k < |r| ==> '\r' !in r[k] && '\n' !in r[k]
  {
    var n := NormalizeNewlines(text);
    SplitAvoids(n, '\n', '\r');
    Split(n, '\n')
  }

  /** A non-blank line is quoted as `> ` and its trimmed text, a blank one as a bare `>`. */
  function QuoteLine(line: string): (r: string)
    ensures '\n' !in line ==> '\n' !in r
  {
    assert '\n' !in line ==> '\n' !in Strip(line) by {
      if '\n' !in line {
        StripAvoids(line, '\n');
      }
    }
    if Strip(line) != "" then "> " + Strip(line) else ">"
  }

  /** `blockquote`: the placeholder for blank text, else every line quoted. */
  function Blockquote(text: string): (r: string)
    ensures IsBlank(text) ==> r == EmptyQuote
  {
    if IsBlank(text) then EmptyQuote else Join(Seqs.Map(SourceLines(text), QuoteLine), "\n")
  }

  /**
   * The quote of a non-blank text has one line per source line: `>` exactly
   * for the blank ones, `> ` and the trimmed text for the others.
   */
  lemma BlockquoteLines(text: string)
    requires !IsBlank(text)
    ensures var out := Split(Blockquote(text), '\n');
      var src := SourceLines(text);
      |out| == |src|
      && (forall k :: 0 <= k < |src| ==> (out[k] == ">" <==> IsBlank(src[k])))
      && (forall k :: 0 <= k < |src| && !IsBlank(src[k]) ==> out[k] == "> " + Strip(src[k]))
  {
    var src := SourceLines(text);
    var quoted := Seqs.Map(src, QuoteLine);
    QuotedEach(src);
    SplitOfJoin(quoted, '\n');
    forall k | 0 <= k < |src|
      ensures (quoted[k] == ">" <==> IsBlank(src[k])) && (!IsBlank(src[k]) ==> quoted[k] == "> " + Strip(src[k]))
    {
      QuoteLineShape(src[k]);
    }
  }

  /** Each source line is quoted on its own, with no line break inside. */
  lemma QuotedEach(src: seq<string>)
    requires forall k :: 0 <= k < |src| ==> '\n' !in src[k]
    ensures var quoted := Seqs.Map(src, QuoteLine);
      forall k :: 0 <= k < |quoted| ==> quoted[k] == QuoteLine(src[k]) && '\n' !in quoted[k]
  {
    forall k | 0 <= k < |src| ensures Seqs.Map(src, QuoteLine)[k] == QuoteLine(src[k]) {
      Seqs.MapAt(src, QuoteLine, k);
    }
  }

  /** A quoted line is the bare `>` exactly when the line is blank. */
  lemma QuoteLineShape(line: string)
    ensures QuoteLine(line) == ">" <==> IsBlank(line)
    ensures !IsBlank(line) ==> QuoteLine(line) == "> " + Strip(line)
  {
  }

  // --------------------------------------------------------- issue context

  datatype LoadError = MissingIssueNumber

  const UntitledIssue := "Untitled Issue"

  /** Bodies that name nothing, compared trimmed and lower-cased. */
  const NullBodies: set<string> := {"", "null", "none", "undefined"}

  predicate NullBody(b: string) { Lower(Strip(b)) in NullBodies }

  /**
   * `load_issue_context` on the process environment: the issue number is
   * required, the title defaults and is trimmed, a placeholder body becomes
   * empty and any other body is kept as it is.
   */
  function LoadIssueContext(env: map<string, string>): (r: Result<IssueContext, LoadError>)
    ensures r.Err? <==> "ISSUE_NUMBER" !in env || env["ISSUE_NUMBER"] == ""
    ensures r.Ok? ==> r.value.number == env["ISSUE_NUMBER"]
    ensures r.Ok? && ("ISSUE_TITLE" !in env || env["ISSUE_TITLE"] == "") ==> r.value.title == UntitledIssue
    ensures r.Ok? && "ISSUE_TITLE" in env && env["ISSUE_TITLE"] != "" ==> r.value.title == Strip(env["ISSUE_TITLE"])
    ensures r.Ok? ==> (r.value.body == "" <==> "ISSUE_BODY" !in env || NullBody(env["ISSUE_BODY"]))
    ensures r.Ok? && r.value.body != "" ==> r.value.body == env["ISSUE_BODY"]
    ensures r.Ok? ==> r.value.repoSlug == if "GITHUB_REPOSITORY" in env then env["GITHUB_REPOSITORY"] else ""
  {
    if "ISSUE_NUMBER" !in env || env["ISSUE_NUMBER"] == "" then Err(MissingIssueNumber)
    else
      var rawTitle := if "ISSUE_TITLE" in env && env["ISSUE_TITLE"] != "" then env["ISSUE_TITLE"] else UntitledIssue;
      StripUnspaced(UntitledIssue);
      var body := if "ISSUE_BODY" !in env || NullBody(env["ISSUE_BODY"]) then "" else env["ISSUE_BODY"];
      assert NullBody("");
      var repo := if "GITHUB_REPOSITORY" in env then env["GITHUB_REPOSITORY"] else "";
      Ok(IssueContext(env["ISSUE_NUMBER"], Strip(rawTitle), body, repo))
  }

  /** A title of spaces is not replaced by the default: it is trimmed to nothing. */
  lemma BlankTitleIsEmpty(env: map<string, string>)
    requires "ISSUE_NUMBER" in env && env["ISSUE_NUMBER"] != ""
    requires "ISSUE_TITLE" in env && env["ISSUE_TITLE"] != "" && IsBlank(env["ISSUE_TITLE"])
    ensures LoadIssueContext(env).value.title == ""
  {
  }

  // -------------------------------------------------------------- document

  const SectionPlaceholder := "_Add details to this section before finalizing the response._"

  function Heading(c: IssueContext, documentType: string): string
  {
    "# " + documentType + " for Issue #" + c.number + ": " + c.title
  }

  function GeneratedLine(generatedAt: string): string
  {
    "_Generated automatically on " + generatedAt + "._"
  }

  /** The link to the issue, when there is one, after an empty line. */
  function LinkLines(c: IssueContext): seq<string>
  {
    var url := IssueUrl(c);
    if url != "" then ["", "Issue link: [" + url + "](" + url + ")"] else []
  }

  /** The heading, the generation time and the issue link. */
  function Preamble(c: IssueContext, documentType: string, generatedAt: string): seq<string>
  {
    [Heading(c, documentType), "", GeneratedLine(generatedAt)] + LinkLines(c)
  }

  /** An empty line, the `## ` heading, then the body or the placeholder when it is empty. */
  function SectionLines(section: (string, seq<string>)): seq<string>
  {
    ["", "## " + section.0] + (if section.1 == [] then [SectionPlaceholder] else section.1)
  }

  function DocumentLines(c: IssueContext, documentType: string, sections: seq<(string, seq<string>)>,
                         generatedAt: string): seq<string>
  {
    Preamble(c, documentType, generatedAt) + Seqs.FlatMap(sections, SectionLines)
  }

  /** The lines joined, stripped, and ended by one newline. */
  function Render(lines: seq<string>): string
  {
    Strip(Join(lines, "\n")) + "\n"
  }

  function Document(c: IssueContext, documentType: string, sections: seq<(string, seq<string>)>,
                    generatedAt: string): string
  {
    Render(DocumentLines(c, documentType, sections, generatedAt))
  }

  /**
   * `build_document`; the clock reading `generatedAt` is a parameter,
   * already formatted as `%Y-%m-%d %H:%M UTC`.
   */
  method BuildDocument(c: IssueContext, documentType: string, sections: seq<(string, seq<string>)>,
                       generatedAt: string) returns (doc: string)
    ensures doc == Document(c, documentType, sections, generatedAt)
  {
    var lines := [Heading(c, documentType), "", GeneratedLine(generatedAt)];
    var url := IssueUrl(c);
    if url != "" {
      lines := lines + ["", "Issue link: [" + url + "](" + url + ")"];
    }
    ghost var pre := Preamble(c, documentType, generatedAt);
    assert lines == pre + Seqs.FlatMap(sections[..0], SectionLines);
    var i := 0;
    while i < |sections|
      invariant i <= |sections|
      invariant lines == pre + Seqs.FlatMap(sections[..i], SectionLines)
    {
      var next := AppendSection(lines, sections[i].0, sections[i].1);
      Seqs.FlatMapSnoc(sections[..i], sections[i], SectionLines);
      Seqs.PrefixSnoc(sections, i);
      Seqs.AppendAssoc(pre, Seqs.FlatMap(sections[..i], SectionLines), SectionLines(sections[i]));
      lines := next;
      i := i + 1;
    }
    Seqs.PrefixAll(sections);
    return Strip(Join(lines, "\n")) + "\n";
  }

  /** The loop body of `build_document`: one section appended line by line. */
  method AppendSection(lines: seq<string>, heading: string, body: seq<string>) returns (r: seq<string>)
    ensures r == lines + SectionLines((heading, body))
  {
    r := lines + [""];
    r := r + ["## " + heading];
    if body != [] {
      r := r + body;
    } else {
      r := r + [SectionPlaceholder];
    }
  }

  /** Lines that start with a visible heading and a visible-ending third line keep both through the join and strip. */
  lemma JoinedOpening(h: string, g: string, rest: seq<string>)
    requires h != [] && !IsSpace(h[0]) && g != [] && !IsSpace(g[|g| - 1])
    ensures StartsWith(Strip(Join([h, "", g] + rest, "\n")), h + "\n\n" + g)
  {
    var first := [h, "", g];
    var p := h + "\n\n" + g;
    assert Join(first, "\n") == p by {
      JoinCons(first, "\n");
      assert first[1..] == ["", g];
      JoinCons(["", g], "\n");
      assert ["", g][1..] == [g];
    }
    var joined := Join(first + rest, "\n");
    var t := if rest == [] then "" else "\n" + Join(rest, "\n");
    assert joined == p + t by {
      if rest != [] {
        JoinAppend(first, rest, "\n");
      } else {
        assert first + rest == first;
      }
    }
    assert joined[0] == h[0];
    assert p[|p| - 1] == g[|g| - 1];
    StripVisibleStart(joined);
    RStripKeeps(p, t);
  }

  /** The document opens with its heading and the generation line, after one empty line. */
  lemma DocumentOpening(c: IssueContext, documentType: string, sections: seq<(string, seq<string>)>,
                        generatedAt: string)
    ensures StartsWith(Document(c, documentType, sections, generatedAt),
                       Heading(c, documentType) + "\n\n" + GeneratedLine(generatedAt))
  {
    var h, g := Heading(c, documentType), GeneratedLine(generatedAt);
    var rest := LinkLines(c) + Seqs.FlatMap(sections, SectionLines);
    Seqs.AppendAssoc([h, "", g], LinkLines(c), Seqs.FlatMap(sections, SectionLines));
    assert h[0] == '#' && g[|g| - 1] == '_';
    JoinedOpening(h, g, rest);
  }

  /** The document ends with exactly one newline: the character before it is visible. */
  lemma DocumentEnding(c: IssueContext, documentType: string, sections: seq<(string, seq<string>)>,
                       generatedAt: string)
    ensures var doc := Document(c, documentType, sections, generatedAt);
      |doc| >= 2 && doc[|doc| - 1] == '\n' && !IsSpace(doc[|doc| - 2])
  {
    var h, g := Heading(c, documentType), GeneratedLine(generatedAt);
    var rest := LinkLines(c) + Seqs.FlatMap(sections, SectionLines);
    Seqs.AppendAssoc([h, "", g], LinkLines(c), Seqs.FlatMap(sections, SectionLines));
    assert h[0] == '#' && g[|g| - 1] == '_';
    JoinedOpening(h, g, rest);
  }

  /**
   * Section `k` occupies its own block of lines after the preamble and the
   * earlier sections: an empty line, its heading, then its body or the placeholder.
   */
  lemma SectionBlock(c: IssueContext, documentType: string, sections: seq<(string, seq<string>)>,
                     generatedAt: string, k: nat)
    requires k < |sections|
    ensures var lines := DocumentLines(c, documentType, sections, generatedAt);
      var o := |Preamble(c, documentType, generatedAt)| + |Seqs.FlatMap(sections[..k], SectionLines)|;
      o + |SectionLines(sections[k])| <= |lines|
      && lines[o..o + |SectionLines(sections[k])|] == SectionLines(sections[k])
      && lines[o + 1] == "## " + sections[k].0
  {
    var pre := Preamble(c, documentType, generatedAt);
    var before := Seqs.FlatMap(sections[..k], SectionLines);
    var block := SectionLines(sections[k]);
    var after := Seqs.FlatMap(sections[k + 1..], SectionLines);
    Seqs.FlatMapAround(sections, k, SectionLines);
    Seqs.AppendAssoc(pre, before + block, after);
    Seqs.AppendAssoc(pre, before, block);
    Seqs.ThreeSlices(pre + before, block, after);
  }

  // ------------------------------------------------------------- file name

  /** The name `write_document` gives the file: the issue number, a hyphen, the title's slug, `.md`. */
  function FileName(c: IssueContext): (r: string)
    ensures StartsWith(r, c.number + "-") && EndsWith(r, ".md")
    ensures |r| >= |c.number| + 4 && ValidSlug(r[|c.number| + 1..|r| - 3])
  {
    var slug := Slugify(c.title, DefaultSlugLength);
    SlugifyValid(c.title, DefaultSlugLength);
    var r := (c.number + "-") + slug + ".md";
    Seqs.ThreeSlices(c.number + "-", slug, ".md");
    r
  }
}
