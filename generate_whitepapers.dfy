/**
 * What the whitepaper generator takes from one chapter: the title, the
 * first diagram, a few condensed paragraphs, the section headings and the
 * word count from which the reading time is derived.
 */
module Whitepapers {
  import opened Wrappers
  import opened Str
  import Seqs

  datatype ChapterData = ChapterData(title: string, diagramPath: Option<string>, condensed: seq<string>,
                                     sectionHeaders: seq<string>, wordCount: nat)

  /** Shorter stripped content than this counts as empty. */
  const MinContentLength: nat := 10
  const ParagraphLimit: nat := 3
  const AnyTextLimit: nat := 2
  const HeaderLimit: nat := 6
  const FallbackHeaders: seq<string> := ["Introduction", "Implementation", "Best Practises"]

  // ------------------------------------------------------------ word count

  /** Where the `\w+` match starting at `p` ends; at `p` itself when none starts there. */
  function WordRunEnd(s: string, p: nat): int
  {
    if p <= |s| then p + Span(s[p..], IsWordChar) else p
  }

  /** `len(re.findall(r'\w+', s))`. */
  function WordCount(s: string): nat
  {
    CountMatches(s, WordRunEnd, 0)
  }

  lemma {:induction false} WordRunsFrom(s: string, p: nat)
    ensures CountMatches(s, WordRunEnd, p) == 0 <==> forall i :: p <= i < |s| ==> !IsWordChar(s[i])
    decreases |s| - p
  {
    if p < |s| {
      assert s[p..][0] == s[p];
      if !IsWordChar(s[p]) {
        WordRunsFrom(s, p + 1);
      }
    }
  }

  /** The count is zero exactly when the text holds no word character. */
  lemma WordCountZero(s: string)
    ensures WordCount(s) == 0 <==> forall i :: 0 <= i < |s| ==> !IsWordChar(s[i])
  {
    WordRunsFrom(s, 0);
  }

  // ----------------------------------------------------------------- title

  predicate IsTitleLine(line: string) { StartsWith(line, "# ") }

  /** The stripped text of the first `# ` line. */
  function FirstTitle(lines: seq<string>): Option<string>
  {
    if lines == [] then None
    else if IsTitleLine(lines[0]) then Some(Strip(lines[0][2..]))
    else FirstTitle(lines[1..])
  }

  /** A title is found exactly when some line is a `# ` line, and then it is the first one's text. */
  lemma {:induction false} FirstTitleIff(lines: seq<string>)
    ensures FirstTitle(lines).None? <==> forall i :: 0 <= i < |lines| ==> !IsTitleLine(lines[i])
    ensures FirstTitle(lines).Some? ==>
      exists i :: 0 <= i < |lines| && IsTitleLine(lines[i]) && FirstTitle(lines).value == Strip(lines[i][2..])
                  && forall j :: 0 <= j < i ==> !IsTitleLine(lines[j])
  {
    if lines != [] && !IsTitleLine(lines[0]) {
      var tail := lines[1..];
      FirstTitleIff(tail);
      assert forall i :: 1 <= i < |lines| ==> lines[i] == tail[i - 1];
      if FirstTitle(tail).Some? {
        var i :| 0 <= i < |tail| && IsTitleLine(tail[i]) && FirstTitle(tail).value == Strip(tail[i][2..])
                 && forall j :: 0 <= j < i ==> !IsTitleLine(tail[j]);
        assert lines[i + 1] == tail[i];
      }
    }
  }

  /** `word.capitalize()`: the first letter upper-cased, the rest lower-cased. */
  function Capitalize(w: string): (r: string)
    ensures |r| == |w|
    ensures NoSpace(w) ==> NoSpace(r)
  {
    if w == [] then [] else [UpperAscii(w[0])] + Lower(w[1..])
  }

  /** The file name without `.md` and with underscores as spaces. */
  function TitleBase(filename: string): string
  {
    ReplaceAll(ReplaceAll(filename, ".md", ""), "_", " ")
  }

  /** The title made from a file name: its words capitalised and joined by single spaces. */
  function FileTitle(filename: string): string
  {
    Join(Seqs.Map(Words(TitleBase(filename)), Capitalize), " ")
  }

  /** Replacing every occurrence of a character by text without it leaves none. */
  lemma {:induction false} ReplaceRemoves(s: string, c: char, rep: string)
    requires c !in rep
    ensures c !in ReplaceAll(s, [c], rep)
    decreases |s|
  {
    if |s| >= 1 {
      if s[..1] == [c] {
        ReplaceRemoves(s[1..], c, rep);
      } else {
        assert s[0] != c;
        ReplaceRemoves(s[1..], c, rep);
      }
    }
  }

  lemma {:induction false} CapitalizedWords(ws: seq<string>)
    requires AllWords(ws)
    ensures AllWords(Seqs.Map(ws, Capitalize))
  {
    var r := Seqs.Map(ws, Capitalize);
    forall k | 0 <= k < |r| ensures r[k] != [] && NoSpace(r[k]) {
      Seqs.MapAt(ws, Capitalize, k);
    }
  }

  /**
   * The title's words are the capitalised words of the name once `.md` is
   * dropped and underscores are spaces; none of them holds an underscore.
   */
  lemma FileTitleWords(filename: string)
    ensures Words(FileTitle(filename)) == Seqs.Map(Words(TitleBase(filename)), Capitalize)
    ensures '_' !in TitleBase(filename)
  {
    CapitalizedWords(Words(TitleBase(filename)));
    WordsOfJoin(Seqs.Map(Words(TitleBase(filename)), Capitalize));
    ReplaceRemoves(ReplaceAll(filename, ".md", ""), '_', " ");
  }

  /** The title: the first `# ` heading, else the one made from the file name. */
  function Title(lines: seq<string>, filename: string): string
  {
    match FirstTitle(lines)
    case Some(t) => t
    case None => FileTitle(filename)
  }

  // --------------------------------------------------------------- diagram

  predicate IsDiagramLine(line: string) { StartsWith(line, "![") && Contains(line, "images/") }

  /** `re.search(r'!\[.*?\]\((.*?)\)', line).group(1)` on a line that starts with `![`. */
  function ImageTarget(line: string): (r: Option<string>)
    ensures r.Some? ==> ')' !in r.value && exists j :: 2 <= j && OccursAt(line, "](" + r.value + ")", j)
    ensures r.None? ==> forall j, k :: 2 <= j && OccursAt(line, "](", j) && j + 2 <= k < |line| ==> line[k] != ')'
  {
    var j := FindFrom(line, "](", 2);
    if j < 0 then None
    else
      var k := FindFrom(line, ")", j + 2);
      if k < 0 then
        assert forall i :: j + 2 <= i < |line| ==> line[i] != ')' by {
          forall i | j + 2 <= i < |line| ensures line[i] != ')' {
            assert !OccursAt(line, ")", i);
            assert line[i..i + 1] == [line[i]];
          }
        }
        None
      else
        var t := line[j + 2..k];
        assert ')' !in t by {
          forall i | 0 <= i < |t| ensures t[i] != ')' {
            assert !OccursAt(line, ")", j + 2 + i);
            assert line[j + 2 + i..j + 3 + i] == [t[i]];
          }
        }
        assert line[k..k + 1] == ")";
        assert line[j..k + 1] == "](" + t + ")";
        assert OccursAt(line, "](" + t + ")", j);
        Some(t)
  }

  /** The target of the first diagram line whose image syntax matches. */
  function FirstDiagram(lines: seq<string>): Option<string>
  {
    if lines == [] then None
    else if IsDiagramLine(lines[0]) && ImageTarget(lines[0]).Some? then ImageTarget(lines[0])
    else FirstDiagram(lines[1..])
  }

  // ------------------------------------------------------- condensed text

  /** Lines the first pass passes over: titles, blank lines, images and `##` headings. */
  predicate IsSkipped(line: string)
  {
    StartsWith(line, "# ") || line == [] || StartsWith(line, "![") || StartsWith(line, "##")
  }

  predicate IsSectionHeading(line: string) { StartsWith(line, "## ") }

  /** Every section heading is among the skipped lines. */
  lemma HeadingsAreSkipped(line: string)
    ensures IsSectionHeading(line) ==> IsSkipped(line)
  {
    if IsSectionHeading(line) {
      assert line[..2] == line[..3][..2];
    }
  }

  predicate IsFormatting(line: string)
  {
    StartsWith(line, "```") || StartsWith(line, "*") || StartsWith(line, "-") || StartsWith(line, ">")
  }

  /** A substantial paragraph line: not skipped, not formatting, over 30 characters. */
  predicate IsParagraph(line: string) { !IsSkipped(line) && !IsFormatting(line) && |line| > 30 }

  /** A line the second pass accepts: not a heading, image or fence, at least 20 characters. */
  predicate IsAnyText(line: string)
  {
    !(line == [] || StartsWith(line, "#") || StartsWith(line, "![") || StartsWith(line, "```") || |line| < 20)
  }

  /** `line[3:].strip()`. */
  function HeadingText(line: string): string { if |line| >= 3 then Strip(line[3..]) else [] }

  function Stripped(lines: seq<string>): seq<string> { Seqs.Map(lines, Strip) }

  /** At most three substantial paragraphs, in order. */
  function Paragraphs(lines: seq<string>): seq<string>
  {
    Seqs.Take(Seqs.Filter(Stripped(lines), IsParagraph), ParagraphLimit)
  }

  /** At most two lines of any substantial text, in order. */
  function AnyText(lines: seq<string>): seq<string>
  {
    Seqs.Take(Seqs.Filter(Stripped(lines), IsAnyText), AnyTextLimit)
  }

  /** The texts of all `## ` headings, in order. */
  function Headings(lines: seq<string>): seq<string>
  {
    Seqs.Map(Seqs.Filter(Stripped(lines), IsSectionHeading), HeadingText)
  }

  function FallbackParagraph(title: string): string
  {
    "This chapter covers " + Lower(title) + " within Infrastructure as Code for organisations."
  }

  /** The paragraphs, else any text, else the fixed sentence about the title. */
  function Condensed(lines: seq<string>, title: string): seq<string>
  {
    if Paragraphs(lines) != [] then Paragraphs(lines)
    else if AnyText(lines) != [] then AnyText(lines)
    else [FallbackParagraph(title)]
  }

  /** The first six headings, or the three fixed names when there are none. */
  function SectionHeaders(lines: seq<string>): seq<string>
  {
    if Headings(lines) == [] then FallbackHeaders else Seqs.Take(Headings(lines), HeaderLimit)
  }

  /** `read_chapter_content` on the text of a chapter and its file name; `None` for a (nearly) empty chapter. */
  function ChapterContent(content: string, filename: string): Option<ChapterData>
  {
    if |Strip(content)| < MinContentLength then None
    else
      var lines := Split(content, '\n');
      var title := Title(lines, filename);
      Some(ChapterData(title, FirstDiagram(lines), Condensed(lines, title), SectionHeaders(lines), WordCount(content)))
  }

  /** One to three condensed paragraphs, each a stripped line of the chapter, or just the fixed sentence. */
  lemma CondensedShape(lines: seq<string>, title: string)
    ensures 1 <= |Condensed(lines, title)| <= ParagraphLimit
    ensures Condensed(lines, title) == [FallbackParagraph(title)]
            || forall k :: 0 <= k < |Condensed(lines, title)| ==> Condensed(lines, title)[k] in Stripped(lines)
  {
    var p := Seqs.Filter(Stripped(lines), IsParagraph);
    var a := Seqs.Filter(Stripped(lines), IsAnyText);
    assert forall k :: 0 <= k < |Paragraphs(lines)| ==> Paragraphs(lines)[k] in p;
    assert forall k :: 0 <= k < |AnyText(lines)| ==> AnyText(lines)[k] in a;
  }

  /** One to six section headers. */
  lemma HeadersShape(lines: seq<string>)
    ensures 1 <= |SectionHeaders(lines)| <= HeaderLimit
  {
  }

  /**
   * A chapter is read unless its stripped text is shorter than ten
   * characters; then there are one to three condensed paragraphs, each a
   * stripped line of the chapter or the fixed sentence, and one to six
   * section headers.
   */
  lemma ContentShape(content: string, filename: string)
    ensures ChapterContent(content, filename).None? <==> |Strip(content)| < MinContentLength
    ensures var r := ChapterContent(content, filename);
      r.Some? ==>
        1 <= |r.value.condensed| <= ParagraphLimit && 1 <= |r.value.sectionHeaders| <= HeaderLimit
        && (r.value.condensed == [FallbackParagraph(r.value.title)]
            || forall k :: 0 <= k < |r.value.condensed| ==> r.value.condensed[k] in Stripped(Split(content, '\n')))
  {
    var lines := Split(content, '\n');
    CondensedShape(lines, Title(lines, filename));
    HeadersShape(lines);
  }

  /** Substantial paragraphs are over 30 characters and any-text lines at least 20. */
  lemma CondensedLengths(lines: seq<string>)
    ensures forall k :: 0 <= k < |Paragraphs(lines)| ==> |Paragraphs(lines)[k]| > 30
    ensures forall k :: 0 <= k < |AnyText(lines)| ==> |AnyText(lines)[k]| >= 20
  {
    var p := Seqs.Filter(Stripped(lines), IsParagraph);
    var a := Seqs.Filter(Stripped(lines), IsAnyText);
    assert forall k :: 0 <= k < |Paragraphs(lines)| ==> Paragraphs(lines)[k] in p;
    assert forall k :: 0 <= k < |AnyText(lines)| ==> AnyText(lines)[k] in a;
  }

  // --------------------------------------------------------- the reading

  /** The filtered stripped lines grow by the next line's stripped text when it passes. */
  lemma FilterStep(lines: seq<string>, i: nat, p: string -> bool)
    requires i < |lines|
    ensures Seqs.Filter(Stripped(lines[..i + 1]), p)
            == Seqs.Filter(Stripped(lines[..i]), p) + (if p(Strip(lines[i])) then [Strip(lines[i])] else [])
  {
    assert lines[..i + 1] == lines[..i] + [lines[i]];
    Seqs.MapSnoc(lines[..i], lines[i], Strip);
    Seqs.FilterSnoc(Stripped(lines[..i]), Strip(lines[i]), p);
  }

  /** The title loop: the first `# ` line ends the search. */
  method FindTitle(lines: seq<string>) returns (r: Option<string>)
    ensures r == FirstTitle(lines)
  {
    var i := 0;
    while i < |lines|
      invariant i <= |lines|
      invariant FirstTitle(lines) == FirstTitle(lines[i..])
    {
      if StartsWith(lines[i], "# ") {
        return Some(Strip(lines[i][2..]));
      }
      assert lines[i..][1..] == lines[i + 1..];
      i := i + 1;
    }
    return None;
  }

  /** The diagram loop: the first image line under `images/` whose syntax matches. */
  method FindDiagram(lines: seq<string>) returns (r: Option<string>)
    ensures r == FirstDiagram(lines)
  {
    var i := 0;
    while i < |lines|
      invariant i <= |lines|
      invariant FirstDiagram(lines) == FirstDiagram(lines[i..])
    {
      var line := lines[i];
      if StartsWith(line, "![") && Contains(line, "images/") {
        var target := ImageTarget(line);
        if target.Some? {
          return target;
        }
      }
      assert lines[i..][1..] == lines[i + 1..];
      i := i + 1;
    }
    return None;
  }

  /** One more line extends the paragraphs when it is one and fewer than three are kept. */
  lemma ParagraphStep(lines: seq<string>, i: nat)
    requires i < |lines|
    ensures IsParagraph(Strip(lines[i])) && |Paragraphs(lines[..i])| < ParagraphLimit ==>
              Paragraphs(lines[..i + 1]) == Paragraphs(lines[..i]) + [Strip(lines[i])]
    ensures !(IsParagraph(Strip(lines[i])) && |Paragraphs(lines[..i])| < ParagraphLimit) ==>
              Paragraphs(lines[..i + 1]) == Paragraphs(lines[..i])
  {
    var line := Strip(lines[i]);
    var f := Seqs.Filter(Stripped(lines[..i]), IsParagraph);
    FilterStep(lines, i, IsParagraph);
    if IsParagraph(line) {
      Seqs.TakeSnoc(f, line, ParagraphLimit);
    }
  }

  /** One more line extends the headings when it is one. */
  lemma HeadingStep(lines: seq<string>, i: nat)
    requires i < |lines|
    ensures IsSectionHeading(Strip(lines[i])) ==> Headings(lines[..i + 1]) == Headings(lines[..i]) + [HeadingText(Strip(lines[i]))]
    ensures !IsSectionHeading(Strip(lines[i])) ==> Headings(lines[..i + 1]) == Headings(lines[..i])
  {
    var line := Strip(lines[i]);
    var f := Seqs.Filter(Stripped(lines[..i]), IsSectionHeading);
    FilterStep(lines, i, IsSectionHeading);
    if IsSectionHeading(line) {
      assert Seqs.Filter(Stripped(lines[..i + 1]), IsSectionHeading) == f + [line];
      Seqs.MapSnoc(f, line, HeadingText);
    } else {
      assert f + [] == f;
    }
  }

  /** The paragraphs the first pass has kept after the given lines, one line at a time. */
  function KeptParagraphs(lines: seq<string>): seq<string>
  {
    if lines == [] then []
    else
      var kept := KeptParagraphs(lines[..|lines| - 1]);
      var line := Strip(lines[|lines| - 1]);
      if IsParagraph(line) && |kept| < ParagraphLimit then kept + [line] else kept
  }

  /** The headings the first pass has collected after the given lines, one line at a time. */
  function KeptHeadings(lines: seq<string>): seq<string>
  {
    if lines == [] then []
    else
      var kept := KeptHeadings(lines[..|lines| - 1]);
      var line := Strip(lines[|lines| - 1]);
      if IsSectionHeading(line) then kept + [HeadingText(line)] else kept
  }

  /** Line by line, the first pass keeps the first three paragraphs. */
  lemma {:induction false} KeptParagraphsFiltered(lines: seq<string>)
    ensures KeptParagraphs(lines) == Paragraphs(lines)
  {
    if lines != [] {
      var n := |lines| - 1;
      var kept := KeptParagraphs(lines[..n]);
      var line := Strip(lines[n]);
      assert KeptParagraphs(lines) == if IsParagraph(line) && |kept| < ParagraphLimit then kept + [line] else kept;
      KeptParagraphsFiltered(lines[..n]);
      ParagraphStep(lines, n);
      assert lines[..n + 1] == lines;
    }
  }

  /** Line by line, the first pass collects every heading. */
  lemma {:induction false} KeptHeadingsFiltered(lines: seq<string>)
    ensures KeptHeadings(lines) == Headings(lines)
  {
    if lines != [] {
      var n := |lines| - 1;
      KeptHeadingsFiltered(lines[..n]);
      HeadingStep(lines, n);
      assert lines[..n + 1] == lines;
    }
  }

  /** The first pass: section headings collected, up to three substantial paragraphs kept. */
  method CollectParagraphs(lines: seq<string>) returns (condensed: seq<string>, headers: seq<string>)
    ensures condensed == Paragraphs(lines)
    ensures headers == Headings(lines)
  {
    condensed := [];
    headers := [];
    var paragraphCount := 0;
    var i := 0;
    while i < |lines|
      invariant i <= |lines|
      invariant condensed == KeptParagraphs(lines[..i])
      invariant paragraphCount == |condensed|
      invariant headers == KeptHeadings(lines[..i])
    {
      var line := Strip(lines[i]);
      assert lines[..i + 1][..i] == lines[..i];
      HeadingsAreSkipped(line);
      if IsSkipped(line) {
        if IsSectionHeading(line) {
          headers := headers + [HeadingText(line)];
        }
      } else if IsFormatting(line) {
      } else if paragraphCount < 3 && |line| > 30 {
        condensed := condensed + [line];
        paragraphCount := paragraphCount + 1;
      }
      i := i + 1;
    }
    assert lines[..i] == lines;
    KeptParagraphsFiltered(lines);
    KeptHeadingsFiltered(lines);
  }

  /** Taking the first `n` filtered lines of a prefix that already has `n` of them is taking them of the whole. */
  lemma TakeSettled(lines: seq<string>, i: nat, p: string -> bool, n: nat)
    requires i <= |lines| && |Seqs.Filter(Stripped(lines[..i]), p)| >= n
    ensures Seqs.Take(Seqs.Filter(Stripped(lines), p), n) == Seqs.Take(Seqs.Filter(Stripped(lines[..i]), p), n)
  {
    assert lines == lines[..i] + lines[i..];
    Seqs.MapAppend(lines[..i], lines[i..], Strip);
    Seqs.FilterAppend(Stripped(lines[..i]), Stripped(lines[i..]), p);
    Seqs.TakeOfExtension(Seqs.Filter(Stripped(lines[..i]), p), Seqs.Filter(Stripped(lines[i..]), p), n);
  }

  /** One more line extends the any-text lines while fewer than two are kept. */
  lemma AnyTextStep(lines: seq<string>, i: nat)
    requires i < |lines|
    ensures var line := Strip(lines[i]);
      AnyText(lines[..i + 1])
        == if IsAnyText(line) && |AnyText(lines[..i])| < AnyTextLimit then AnyText(lines[..i]) + [line]
           else AnyText(lines[..i])
    ensures IsAnyText(Strip(lines[i])) && |AnyText(lines[..i])| >= AnyTextLimit ==> AnyText(lines) == AnyText(lines[..i])
  {
    var line := Strip(lines[i]);
    FilterStep(lines, i, IsAnyText);
    Seqs.TakeSnoc(Seqs.Filter(Stripped(lines[..i]), IsAnyText), line, AnyTextLimit);
    if |AnyText(lines[..i])| >= AnyTextLimit {
      TakeSettled(lines, i, IsAnyText, AnyTextLimit);
    }
  }

  /** The second pass: up to two lines of any substantial text; a third one ends it. */
  method CollectAnyText(lines: seq<string>) returns (condensed: seq<string>)
    ensures condensed == AnyText(lines)
  {
    condensed := [];
    var i := 0;
    while i < |lines|
      invariant i <= |lines|
      invariant condensed == AnyText(lines[..i])
    {
      var line := Strip(lines[i]);
      AnyTextStep(lines, i);
      if !IsAnyText(line) {
      } else if |condensed| < 2 {
        condensed := condensed + [line];
      } else {
        return;
      }
      i := i + 1;
    }
    assert lines[..i] == lines;
  }

  /** `read_chapter_content`: the passes over the lines, then the fallbacks. */
  method ReadChapterContent(content: string, filename: string) returns (r: Option<ChapterData>)
    ensures r == ChapterContent(content, filename)
  {
    if |Strip(content)| < 10 {
      return None;
    }
    var wordCount := WordCount(content);
    var lines := Split(content, '\n');
    var title := FindTitle(lines);
    var chapterTitle := if title.Some? then title.value else FileTitle(filename);
    var diagram := FindDiagram(lines);
    var condensed, headers := CollectParagraphs(lines);
    if |condensed| == 0 {
      condensed := CollectAnyText(lines);
    }
    if condensed == [] {
      condensed := [FallbackParagraph(chapterTitle)];
    }
    if headers == [] {
      headers := FallbackHeaders;
    }
    assert Seqs.Take(FallbackHeaders, 6) == FallbackHeaders;
    return Some(ChapterData(chapterTitle, diagram, condensed, Seqs.Take(headers, 6), wordCount));
  }

  // ---------------------------------------------------------- reading time

  /** Minutes at 220 words a minute, rounded up, never below three; three when the count is zero. */
  function ReadingMinutes(words: nat): (m: nat)
  {
    if words == 0 then 3
    else
      var up := (words + 219) / 220;
      if up < 3 then 3 else up
  }

  /** At least three minutes, enough for the words at 220 a minute, and no more than needed beyond three. */
  lemma ReadingMinutesBounds(words: nat)
    ensures ReadingMinutes(words) >= 3
    ensures ReadingMinutes(words) * 220 >= words
    ensures ReadingMinutes(words) > 3 ==> (ReadingMinutes(words) - 1) * 220 < words
  {
  }

  /** The label always says "minutes": the count is never one. */
  function ReadingLabel(words: nat): string
  {
    var m := ReadingMinutes(words);
    NatToString(m) + " minute" + (if m != 1 then "s" else "")
  }

  lemma ReadingLabelPlural(words: nat)
    ensures ReadingLabel(words) == NatToString(ReadingMinutes(words)) + " minutes"
  {
  }
}

/**
 * The chapter mappings the whitepaper generator reads from the
 * requirements front matter, and the run over the chapter files with its
 * success rule.
 */
module WhitepaperRun {
  import opened Wrappers
  import opened Str
  import opened Values
  import Seqs
  import Paths
  import Whitepapers

  /** The front matter holds something the generator cannot call `.get` on or iterate. */
  datatype MetadataError = MalformedRequirements

  /** What the mapping keeps for one chapter file; `description` only for supplemental chapters. */
  datatype ChapterMeta = ChapterMeta(chapterLabel: Value, title: Value, area: Value, description: Option<string>,
                                     supplemental: bool)

  type Mapping = seq<(string, ChapterMeta)>

  // ---------------------------------------------------------- front matter

  /** A line that opens or closes the front matter. */
  predicate IsFence(line: string) { Strip(line) == "---" }

  /** The lines after the opening fence, up to the closing one. */
  function UntilFence(lines: seq<string>): (r: seq<string>)
    ensures |r| <= |lines|
  {
    if lines == [] || IsFence(lines[0]) then [] else [lines[0]] + UntilFence(lines[1..])
  }

  /** The front matter is the lines before the first closing fence, or all of them when there is none. */
  lemma {:induction false} UntilFenceStops(lines: seq<string>)
    ensures var r := UntilFence(lines);
      (forall k :: 0 <= k < |r| ==> r[k] == lines[k] && !IsFence(lines[k]))
      && (|r| < |lines| ==> IsFence(lines[|r|]))
  {
    if lines != [] && !IsFence(lines[0]) {
      UntilFenceStops(lines[1..]);
      var rest := UntilFence(lines[1..]);
      assert UntilFence(lines) == [lines[0]] + rest;
      assert forall k :: 1 <= k <= |rest| ==> ([lines[0]] + rest)[k] == rest[k - 1];
    }
  }

  /**
   * `_load_requirements_metadata`: the front matter of the requirements
   * file, `{}` when the file is missing, does not open with `---` or parses
   * to something falsy.  `parse` is the YAML loader, `None` when it raises.
   */
  function Metadata(found: bool, text: string, parse: string -> Option<Value>): (r: Result<Value, MetadataError>)
    ensures r.Ok? ==> Truthy(r.value) || r.value == VDict([])
  {
    var lines := SplitLines(text);
    if !found || lines == [] || !IsFence(lines[0]) then Ok(VDict([]))
    else
      match parse(Join(UntilFence(lines[1..]), "\n"))
      case None => Err(MalformedRequirements)
      case Some(v) => Ok(if Truthy(v) then v else VDict([]))
  }

  /** `d.get(k, default)`, which raises when `d` is not a dictionary. */
  function DictGet(d: Value, k: string, default: Value): (r: Result<Value, MetadataError>)
    ensures r.Ok? <==> d.VDict?
    ensures d.VDict? && k !in Keys(d.entries) ==> r == Ok(default)
  {
    if !d.VDict? then Err(MalformedRequirements)
    else match Lookup(d.entries, k)
      case Some(v) => Ok(v)
      case None => Ok(default)
  }

  /**
   * The chapters `for chapter in value` visits before `.get` is called on
   * one: the items of a list; nothing for an empty string or dictionary;
   * anything else raises (a scalar is not iterable, characters and keys
   * have no `.get`).
   */
  function Iterate(v: Value): (r: Result<seq<Value>, MetadataError>)
    ensures v.VList? ==> r == Ok(v.items)
    ensures r.Ok? && !v.VList? ==> r.value == []
  {
    match v
    case VList(items) => Ok(items)
    case VDict(entries) => if entries == [] then Ok([]) else Err(MalformedRequirements)
    case VStr(s) => if s == [] then Ok([]) else Err(MalformedRequirements)
    case _ => Err(MalformedRequirements)
  }

  /** `metadata.get("book", {}).get("chapters", [])`. */
  function CanonicalChapters(metadata: Value): Result<seq<Value>, MetadataError>
  {
    match DictGet(metadata, "book", VDict([]))
    case Err(e) => Err(e)
    case Ok(book) =>
      match DictGet(book, "chapters", VList([]))
      case Err(e) => Err(e)
      case Ok(chapters) => Iterate(chapters)
  }

  /** `book.get("supplemental_chapters") or metadata.get("supplemental_chapters") or []`. */
  function SupplementalChapters(metadata: Value): Result<seq<Value>, MetadataError>
  {
    match DictGet(metadata, "book", VDict([]))
    case Err(e) => Err(e)
    case Ok(book) =>
      match DictGet(book, "supplemental_chapters", VNone)
      case Err(e) => Err(e)
      case Ok(inBook) =>
        if Truthy(inBook) then Iterate(inBook)
        else
          match DictGet(metadata, "supplemental_chapters", VNone)
          case Err(e) => Err(e)
          case Ok(topLevel) => if Truthy(topLevel) then Iterate(topLevel) else Ok([])
  }

  // --------------------------------------------------------------- entries

  const DefaultArea: string := "Architecture as Code"
  const SupplementalArea: string := "Supplemental Material"
  const SupplementalLabel: string := "Supplemental Chapter"

  /** `x or y`. */
  function Or(x: Value, y: Value): (r: Value)
    ensures Truthy(x) ==> r == x
    ensures !Truthy(x) ==> r == y
    ensures Truthy(r) <==> Truthy(x) || Truthy(y)
    ensures !Truthy(r) ==> r == y
  {
    if Truthy(x) then x else y
  }

  /** `chapter.get(k)`, `None` when absent. */
  function Field(chapter: Value, k: string): Value { Get(chapter, k).GetOr(VNone) }

  /**
   * The entry `get_chapter_mapping` makes of the chapter at `position`
   * (counting every chapter from 1): none without a file name; the label
   * falls back to the title and then to "Chapter <position>", the title to
   * the label, the area to the default.
   */
  function CanonicalEntry(chapter: Value, position: nat): (r: Result<Option<(string, ChapterMeta)>, MetadataError>)
    ensures r.Err? <==> !chapter.VDict?
    ensures r.Ok? ==> (r.value.None? <==> !Truthy(Field(chapter, "filename")))
    ensures r.Ok? && r.value.Some? ==>
      var m := r.value.value.1;
      r.value.value.0 == PyStr(Field(chapter, "filename"))
      && Truthy(m.chapterLabel) && Truthy(m.title) && Truthy(m.area) && !m.supplemental && m.description.None?
      && (!Truthy(Field(chapter, "label")) && !Truthy(Field(chapter, "title"))
          ==> m.chapterLabel == VStr("Chapter " + NatToString(position)))
  {
    if !chapter.VDict? then Err(MalformedRequirements)
    else
      var filename := Field(chapter, "filename");
      if !Truthy(filename) then Ok(None)
      else
        var numbered := VStr("Chapter " + NatToString(position));
        assert Truthy(numbered) && Truthy(VStr(DefaultArea));
        var name := Or(Or(Field(chapter, "label"), Field(chapter, "title")), numbered);
        assert Truthy(name);
        var title := Or(Field(chapter, "title"), name);
        var area := Or(Field(chapter, "area"), VStr(DefaultArea));
        assert Truthy(title) && Truthy(area);
        Ok(Some((PyStr(filename), ChapterMeta(name, title, area, None, false))))
  }

  /**
   * The entry `get_supplemental_chapters` makes: none without a file name;
   * the description is stripped (and must be a string), the area and the
   * label have their own defaults, the title is taken as it is.
   */
  function SupplementalEntry(chapter: Value, position: nat): (r: Result<Option<(string, ChapterMeta)>, MetadataError>)
    ensures chapter.VDict? && !Truthy(Field(chapter, "filename")) ==> r == Ok(None)
    ensures r.Ok? && r.value.Some? ==>
      var m := r.value.value.1;
      r.value.value.0 == PyStr(Field(chapter, "filename"))
      && Truthy(m.chapterLabel) && Truthy(m.area) && m.supplemental && m.title == Field(chapter, "title")
      && m.description.Some? && Strip(m.description.value) == m.description.value
  {
    if !chapter.VDict? then Err(MalformedRequirements)
    else
      var filename := Field(chapter, "filename");
      if !Truthy(filename) then Ok(None)
      else
        match DictGet(chapter, "description", VStr(""))
        case Err(e) => Err(e)
        case Ok(d) =>
          if !d.VStr? then Err(MalformedRequirements)
          else
            StripOfStripped(d.s);
            Ok(Some((PyStr(filename), ChapterMeta(Or(Field(chapter, "label"), VStr(SupplementalLabel)),
                                                  Field(chapter, "title"),
                                                  Or(Field(chapter, "area"), VStr(SupplementalArea)),
                                                  Some(Strip(d.s)), true))))
  }

  // --------------------------------------------------------------- mappings

  /** The ordered dictionary filled entry by entry; a later entry for the same file replaces the earlier one in place. */
  function MappingOf(chapters: seq<Value>, entry: (Value, nat) -> Result<Option<(string, ChapterMeta)>, MetadataError>)
    : Result<Mapping, MetadataError>
  {
    if chapters == [] then Ok([])
    else
      match MappingOf(chapters[..|chapters| - 1], entry)
      case Err(e) => Err(e)
      case Ok(m) =>
        match entry(chapters[|chapters| - 1], |chapters|)
        case Err(e) => Err(e)
        case Ok(None) => Ok(m)
        case Ok(Some(kv)) => Ok(Update(m, kv.0, kv.1))
  }

  /** A dictionary update keeps the keys unique and adds nothing but the new entry. */
  lemma {:induction false} UpdateKeeps(m: Mapping, k: string, v: ChapterMeta)
    requires UniqueKeys(m)
    ensures UniqueKeys(Update(m, k, v))
    ensures forall e :: e in Update(m, k, v) ==> e in m || e == (k, v)
  {
    var r := Update(m, k, v);
    if m != [] && m[0].0 != k {
      UpdateKeeps(m[1..], k, v);
      var t := Update(m[1..], k, v);
      assert r == [m[0]] + t;
      assert m[0].0 !in Keys(m[1..]) by {
        forall i | 0 <= i < |m[1..]| ensures m[1..][i].0 != m[0].0 {
          assert m[1..][i] == m[i + 1];
        }
      }
      assert UniqueKeys(r) by {
        forall i, j | 0 <= i < j < |r| ensures r[i].0 != r[j].0 {
          if i == 0 {
            assert r[j] == t[j - 1];
            assert r[j].0 in Keys(t);
          } else {
            assert r[i] == t[i - 1] && r[j] == t[j - 1];
          }
        }
      }
      forall e | e in r ensures e in m || e == (k, v) {
        if e != m[0] {
          assert e in t;
        }
      }
    } else if m != [] {
      assert UniqueKeys(r) by {
        forall i, j | 0 <= i < j < |r| ensures r[i].0 != r[j].0 {
          assert r[i].0 == m[i].0 && r[j].0 == m[j].0;
        }
      }
    }
  }

  /** What every entry of a mapping satisfies when every entry made satisfies it. */
  predicate EntriesSatisfy(entry: (Value, nat) -> Result<Option<(string, ChapterMeta)>, MetadataError>,
                           chapters: seq<Value>, p: ChapterMeta -> bool)
  {
    forall i :: 0 <= i < |chapters| && entry(chapters[i], i + 1).Ok? && entry(chapters[i], i + 1).value.Some?
      ==> p(entry(chapters[i], i + 1).value.value.1)
  }

  /**
   * A mapping has unique keys, each the file name of some chapter's entry,
   * and every entry's metadata is the metadata of some chapter's entry.
   */
  lemma {:induction false} MappingShape(chapters: seq<Value>,
                                        entry: (Value, nat) -> Result<Option<(string, ChapterMeta)>, MetadataError>,
                                        p: ChapterMeta -> bool)
    requires EntriesSatisfy(entry, chapters, p)
    ensures var r := MappingOf(chapters, entry);
      r.Ok? ==> UniqueKeys(r.value) && forall k :: 0 <= k < |r.value| ==> p(r.value[k].1)
  {
    if chapters != [] {
      var n := |chapters| - 1;
      var init := chapters[..n];
      assert EntriesSatisfy(entry, init, p) by {
        forall i | 0 <= i < |init| ensures init[i] == chapters[i] {
        }
      }
      MappingShape(init, entry, p);
      var prev := MappingOf(init, entry);
      var e := entry(chapters[n], n + 1);
      if prev.Ok? && e.Ok? && e.value.Some? {
        var kv := e.value.value;
        UpdateKeeps(prev.value, kv.0, kv.1);
        var r := Update(prev.value, kv.0, kv.1);
        forall k | 0 <= k < |r| ensures p(r[k].1) {
          assert r[k] in r;
        }
      }
    }
  }

  /** The canonical entries are never supplemental and always have a label, a title and an area. */
  predicate CanonicalMeta(m: ChapterMeta)
  {
    Truthy(m.chapterLabel) && Truthy(m.title) && Truthy(m.area) && !m.supplemental
  }

  predicate SupplementalMeta(m: ChapterMeta) { m.supplemental && Truthy(m.chapterLabel) && Truthy(m.area) }

  /** `get_chapter_mapping`: unique file names, each with a label, a title and an area, none supplemental. */
  lemma CanonicalMappingShape(chapters: seq<Value>)
    ensures var r := MappingOf(chapters, CanonicalEntry);
      r.Ok? ==> UniqueKeys(r.value) && forall k :: 0 <= k < |r.value| ==> CanonicalMeta(r.value[k].1)
  {
    MappingShape(chapters, CanonicalEntry, CanonicalMeta);
  }

  /** `get_supplemental_chapters`: unique file names, each supplemental with a label and an area. */
  lemma SupplementalMappingShape(chapters: seq<Value>)
    ensures var r := MappingOf(chapters, SupplementalEntry);
      r.Ok? ==> UniqueKeys(r.value) && forall k :: 0 <= k < |r.value| ==> SupplementalMeta(r.value[k].1)
  {
    MappingShape(chapters, SupplementalEntry, SupplementalMeta);
  }

  /** One step of a mapping loop: an error ends it, a new entry updates it, no entry leaves it. */
  lemma MappingStep(chapters: seq<Value>, i: nat,
                    entry: (Value, nat) -> Result<Option<(string, ChapterMeta)>, MetadataError>, m: Mapping)
    requires i < |chapters| && MappingOf(chapters[..i], entry) == Ok(m)
    ensures var e := entry(chapters[i], i + 1);
      (e.Err? ==> MappingOf(chapters[..i + 1], entry) == Err(e.error))
      && (e.Ok? && e.value.None? ==> MappingOf(chapters[..i + 1], entry) == Ok(m))
      && (e.Ok? && e.value.Some? ==>
            MappingOf(chapters[..i + 1], entry) == Ok(Update(m, e.value.value.0, e.value.value.1)))
  {
    assert chapters[..i + 1][..i] == chapters[..i];
  }

  /** An error part-way through the chapters is the error of the whole mapping. */
  lemma {:induction false} MappingErrSticks(chapters: seq<Value>, i: nat,
                                            entry: (Value, nat) -> Result<Option<(string, ChapterMeta)>, MetadataError>)
    requires i <= |chapters| && MappingOf(chapters[..i], entry).Err?
    ensures MappingOf(chapters, entry) == MappingOf(chapters[..i], entry)
    decreases |chapters| - i
  {
    if i < |chapters| {
      assert chapters[..i + 1][..i] == chapters[..i];
      MappingErrSticks(chapters, i + 1, entry);
    } else {
      assert chapters[..i] == chapters;
    }
  }

  /** `get_chapter_mapping`: the loop over the chapters, counting positions from 1. */
  method GetChapterMapping(chapters: seq<Value>) returns (r: Result<Mapping, MetadataError>)
    ensures r == MappingOf(chapters, CanonicalEntry)
  {
    var mapping: Mapping := [];
    var i := 0;
    while i < |chapters|
      invariant i <= |chapters|
      invariant MappingOf(chapters[..i], CanonicalEntry) == Ok(mapping)
    {
      var chapter := chapters[i];
      var index := i + 1;
      MappingStep(chapters, i, CanonicalEntry, mapping);
      if !chapter.VDict? {
        MappingErrSticks(chapters, i + 1, CanonicalEntry);
        return Err(MalformedRequirements);
      }
      var filename := Field(chapter, "filename");
      if Truthy(filename) {
        var name := Or(Field(chapter, "label"), Field(chapter, "title"));
        if !Truthy(name) {
          name := VStr("Chapter " + NatToString(index));
        }
        var meta := ChapterMeta(name, Or(Field(chapter, "title"), name), Or(Field(chapter, "area"), VStr(DefaultArea)),
                                None, false);
        mapping := Update(mapping, PyStr(filename), meta);
      }
      i := i + 1;
    }
    assert chapters[..i] == chapters;
    return Ok(mapping);
  }

  /** `get_supplemental_chapters`: the same loop with the supplemental entries. */
  method GetSupplementalChapters(chapters: seq<Value>) returns (r: Result<Mapping, MetadataError>)
    ensures r == MappingOf(chapters, SupplementalEntry)
  {
    var mapping: Mapping := [];
    var i := 0;
    while i < |chapters|
      invariant i <= |chapters|
      invariant MappingOf(chapters[..i], SupplementalEntry) == Ok(mapping)
    {
      var chapter := chapters[i];
      MappingStep(chapters, i, SupplementalEntry, mapping);
      var e := SupplementalEntry(chapter, i + 1);
      if e.Err? {
        MappingErrSticks(chapters, i + 1, SupplementalEntry);
        return Err(e.error);
      }
      if e.value.Some? {
        mapping := Update(mapping, e.value.value.0, e.value.value.1);
      }
      i := i + 1;
    }
    assert chapters[..i] == chapters;
    return Ok(mapping);
  }

  // ------------------------------------------------------------------ merge

  /**
   * `get_all_chapter_mapping`: the canonical entries in their order, then
   * each supplemental entry whose file is not mapped yet.
   */
  function Merged(c: Mapping, s: Mapping): (r: Mapping)
    ensures |c| <= |r| && forall i :: 0 <= i < |c| ==> r[i] == c[i]
  {
    if s == [] then c
    else
      var m := Merged(c, s[..|s| - 1]);
      var e := s[|s| - 1];
      if e.0 in Keys(m) then m
      else
        UpdateNew(m, e.0, e.1);
        Update(m, e.0, e.1)
  }

  /**
   * A file of the merged mapping keeps its canonical metadata when it has
   * one and its supplemental metadata otherwise; the merged files are the
   * files of either mapping.
   */
  lemma {:induction false} MergedLookup(c: Mapping, s: Mapping, k: string)
    ensures Lookup(Merged(c, s), k) == if k in Keys(c) then Lookup(c, k) else Lookup(s, k)
    ensures k in Keys(Merged(c, s)) <==> k in Keys(c) || k in Keys(s)
  {
    if s != [] {
      var init := s[..|s| - 1];
      var e := s[|s| - 1];
      Seqs.InitLast(s);
      LookupSnoc(init, e, k);
      MergedLookup(c, init, k);
      var m := Merged(c, init);
      if e.0 in Keys(m) {
        MergedLookup(c, init, e.0);
      } else {
        LookupUpdate(m, e.0, e.1, k);
        MergedLookup(c, init, e.0);
      }
    }
  }

  /** Merging keeps the file names unique. */
  lemma {:induction false} MergedUnique(c: Mapping, s: Mapping)
    requires UniqueKeys(c)
    ensures UniqueKeys(Merged(c, s))
  {
    if s != [] {
      MergedUnique(c, s[..|s| - 1]);
      var e := s[|s| - 1];
      if e.0 !in Keys(Merged(c, s[..|s| - 1])) {
        UpdateKeeps(Merged(c, s[..|s| - 1]), e.0, e.1);
      }
    }
  }

  /** Copying one more canonical entry into the combined mapping appends it. */
  lemma CopyStep(c: Mapping, i: nat)
    requires UniqueKeys(c) && i < |c|
    ensures Update(c[..i], c[i].0, c[i].1) == c[..i + 1]
  {
    assert c[i].0 !in Keys(c[..i]) by {
      forall j | 0 <= j < i ensures c[..i][j].0 != c[i].0 {
        assert c[..i][j] == c[j];
      }
    }
    UpdateNew(c[..i], c[i].0, c[i].1);
    assert c[..i + 1] == c[..i] + [c[i]];
  }

  /** One more supplemental entry: skipped when its file is mapped already, added otherwise. */
  lemma MergeStep(c: Mapping, s: Mapping, j: nat)
    requires j < |s|
    ensures s[j].0 in Keys(Merged(c, s[..j])) ==> Merged(c, s[..j + 1]) == Merged(c, s[..j])
    ensures s[j].0 !in Keys(Merged(c, s[..j])) ==> Merged(c, s[..j + 1]) == Update(Merged(c, s[..j]), s[j].0, s[j].1)
  {
    assert s[..j + 1][..j] == s[..j];
  }

  /** The two loops of `get_all_chapter_mapping`: copy the canonical entries, then add the unseen supplemental ones. */
  method GetAllChapterMapping(c: Mapping, s: Mapping) returns (r: Mapping)
    requires UniqueKeys(c)
    ensures r == Merged(c, s)
  {
    var combined: Mapping := [];
    var i := 0;
    while i < |c|
      invariant i <= |c|
      invariant combined == c[..i]
    {
      CopyStep(c, i);
      combined := Update(combined, c[i].0, c[i].1);
      i := i + 1;
    }
    assert c[..i] == c;
    var j := 0;
    while j < |s|
      invariant j <= |s|
      invariant combined == Merged(c, s[..j])
    {
      MergeStep(c, s, j);
      if s[j].0 !in Keys(combined) {
        combined := Update(combined, s[j].0, s[j].1);
      }
      j := j + 1;
    }
    assert s[..j] == s;
    return combined;
  }

  // -------------------------------------------------------------------- run

  datatype SkipReason = NonChapterFile | MissingFromMapping | SupplementalMissing

  datatype Failure = ReadFailed | RenderFailed | WriteFailed | RequiredMissing

  /** What happens to one markdown file of the docs directory. */
  datatype Outcome = Skip(reason: SkipReason) | Fail(failure: Failure) | Generated(supplemental: bool)

  /**
   * What the run learns from outside: the text of each chapter file (`None`
   * when it cannot be opened), whether the HTML made for it is non-empty,
   * and whether writing each output file succeeds.
   */
  datatype Env = Env(contents: string -> Option<string>, rendered: string -> bool, written: string -> bool)

  /** The per-file counters and lists the run prints in its summary. */
  datatype Summary = Summary(generated: nat, canonicalGenerated: nat, supplementalGenerated: nat,
                             skipped: seq<(string, SkipReason)>, errors: seq<(string, Failure)>)

  /** `str.isupper()`: some cased character and no lower-case one. */
  predicate IsUpperText(s: string)
  {
    (exists i :: 0 <= i < |s| && IsUpper(s[i])) && forall i :: 0 <= i < |s| ==> !IsLower(s[i])
  }

  /** `filename.rsplit('.', 1)[0]`. */
  function BeforeLastDot(f: string): (r: string)
    ensures |r| <= |f|
  {
    var i := Paths.LastIndexOf(f, '.');
    if i < 0 then f else f[..i]
  }

  /** The unmapped files that are expected not to have a whitepaper. */
  predicate IsNonChapterName(f: string)
  {
    StartsWith(f, "README") || IsUpperText(BeforeLastDot(f)) || StartsWith(f, "BOOK_") || StartsWith(f, "EPUB_")
    || StartsWith(f, "TERMINOLOGI_") || StartsWith(f, "part_") || f == "book_structure.md" || f == "index.md"
  }

  /** `filename.replace('.md', '_whitepaper.html')`. */
  function OutputName(f: string): string { ReplaceAll(f, ".md", "_whitepaper.html") }

  /** A markdown file whose stem holds no `.md` becomes `<stem>_whitepaper.html`. */
  lemma {:induction false} OutputNameOfStem(stem: string)
    requires !Contains(stem, ".md")
    ensures OutputName(stem + ".md") == stem + "_whitepaper.html"
    decreases |stem|
  {
    var pat, rep := ".md", "_whitepaper.html";
    var f := stem + pat;
    if stem == [] {
      assert f[3..] == [];
      assert OutputName(f) == rep + ReplaceAll([], pat, rep);
    } else {
      assert f[..3] != pat by {
        if |stem| >= 3 {
          assert f[..3] == stem[..3];
          assert !OccursAt(stem, pat, 0);
        } else if |stem| == 1 {
          assert f[..3][1] == '.' != pat[1];
        } else {
          assert f[..3][2] == '.' != pat[2];
        }
      }
      assert f[1..] == stem[1..] + pat;
      OutputNameOfStem(stem[1..]);
      assert OutputName(f) == [f[0]] + ReplaceAll(f[1..], pat, rep);
      assert [stem[0]] + (stem[1..] + rep) == stem + rep;
    }
  }

  /** `read_chapter_content` on a file of the docs directory. */
  function ReadChapter(env: Env, f: string): Option<Whitepapers.ChapterData>
  {
    match env.contents(f)
    case None => None
    case Some(text) => Whitepapers.ChapterContent(text, f)
  }

  /** The file opens and its stripped text has at least ten characters. */
  predicate Readable(env: Env, f: string)
  {
    env.contents(f).Some? && |Strip(env.contents(f).value)| >= Whitepapers.MinContentLength
  }

  /** `read_chapter_content` gives chapter data exactly for the readable files. */
  lemma ReadableIff(env: Env, f: string)
    ensures ReadChapter(env, f).Some? <==> Readable(env, f)
  {
  }

  /** The first loop's verdict on one file. */
  function FileOutcome(all: Mapping, f: string, env: Env): (o: Outcome)
    ensures o.Skip? <==> f !in Keys(all)
    ensures o.Skip? ==> o.reason != SupplementalMissing
    ensures o.Generated? ==> Lookup(all, f) .Some? && o.supplemental == Lookup(all, f).value.supplemental
  {
    if f !in Keys(all) then Skip(if IsNonChapterName(f) then NonChapterFile else MissingFromMapping)
    else if !Readable(env, f) then Fail(ReadFailed)
    else if !env.rendered(f) then Fail(RenderFailed)
    else if !env.written(OutputName(f)) then Fail(WriteFailed)
    else Generated(Lookup(all, f).value.supplemental)
  }

  /** The summary after one more file. */
  function Record(r: Summary, f: string, o: Outcome): Summary
  {
    match o
    case Skip(why) => r.(skipped := r.skipped + [(f, why)])
    case Fail(why) => r.(errors := r.errors + [(f, why)])
    case Generated(supplemental) =>
      if supplemental then r.(generated := r.generated + 1, supplementalGenerated := r.supplementalGenerated + 1)
      else r.(generated := r.generated + 1, canonicalGenerated := r.canonicalGenerated + 1)
  }

  const NoneYet: Summary := Summary(0, 0, 0, [], [])

  /** The summary after the loop over the docs files: every file counted exactly once. */
  function Scan(all: Mapping, files: seq<string>, env: Env): (r: Summary)
    ensures r.generated == r.canonicalGenerated + r.supplementalGenerated
    ensures r.generated + |r.skipped| + |r.errors| == |files|
  {
    if files == [] then NoneYet
    else
      var f := files[|files| - 1];
      Record(Scan(all, files[..|files| - 1], env), f, FileOutcome(all, f, env))
  }

  /** `processed_files`: the docs files that are mapped. */
  function Processed(all: Mapping, files: seq<string>): set<string>
  {
    set f | f in files && f in Keys(all)
  }

  /** The mapped entries whose file was not among the docs files, in mapping order. */
  function MissingEntries(all: Mapping, processed: set<string>): seq<(string, ChapterMeta)>
  {
    Seqs.Filter(all, (e: (string, ChapterMeta)) => e.0 !in processed)
  }

  /** A missing supplemental chapter is skipped, a missing canonical one is an error. */
  function ReportMissing(missing: seq<(string, ChapterMeta)>, r: Summary): Summary
  {
    if missing == [] then r
    else
      var prev := ReportMissing(missing[..|missing| - 1], r);
      var e := missing[|missing| - 1];
      if e.1.supplemental then prev.(skipped := prev.skipped + [(e.0, SupplementalMissing)])
      else prev.(errors := prev.errors + [(e.0, RequiredMissing)])
  }

  /** The whole run over the docs files with the merged mapping. */
  function Run(all: Mapping, files: seq<string>, env: Env): Summary
  {
    ReportMissing(MissingEntries(all, Processed(all, files)), Scan(all, files, env))
  }

  /** The run's verdict: every canonical chapter generated, at least one whitepaper, no error. */
  predicate Success(canonicalCount: nat, r: Summary)
  {
    r.canonicalGenerated == canonicalCount && r.generated > 0 && r.errors == []
  }

  /**
   * `generate_whitepapers`: the mappings from the requirements metadata,
   * then the run over the sorted docs files; the summary and the verdict.
   */
  function Generation(metadata: Value, files: seq<string>, env: Env): Result<(Summary, bool), MetadataError>
  {
    match CanonicalChapters(metadata)
    case Err(e) => Err(e)
    case Ok(chapters) =>
      match MappingOf(chapters, CanonicalEntry)
      case Err(e) => Err(e)
      case Ok(c) =>
        match SupplementalChapters(metadata)
        case Err(e) => Err(e)
        case Ok(supplemental) =>
          match MappingOf(supplemental, SupplementalEntry)
          case Err(e) => Err(e)
          case Ok(s) =>
            var r := Run(Merged(c, s), files, env);
            Ok((r, Success(|c|, r)))
  }

  /** One more file in the first loop. */
  lemma ScanStep(all: Mapping, files: seq<string>, i: nat, env: Env)
    requires i < |files|
    ensures Scan(all, files[..i + 1], env) == Record(Scan(all, files[..i], env), files[i], FileOutcome(all, files[i], env))
    ensures Processed(all, files[..i + 1]) == Processed(all, files[..i]) + (if files[i] in Keys(all) then {files[i]} else {})
  {
    assert files[..i + 1][..i] == files[..i];
    assert files[..i + 1] == files[..i] + [files[i]];
  }

  /** One more missing entry in the second loop. */
  lemma ReportStep(missing: seq<(string, ChapterMeta)>, j: nat, r: Summary)
    requires j < |missing|
    ensures var prev := ReportMissing(missing[..j], r);
      ReportMissing(missing[..j + 1], r)
      == if missing[j].1.supplemental then prev.(skipped := prev.skipped + [(missing[j].0, SupplementalMissing)])
         else prev.(errors := prev.errors + [(missing[j].0, RequiredMissing)])
  {
    assert missing[..j + 1][..j] == missing[..j];
  }

  /** The body of the first loop for one mapped file: read, render, write, count. */
  method ProcessMapped(all: Mapping, filename: string, env: Env, summary: Summary) returns (next: Summary)
    requires filename in Keys(all)
    ensures next == Record(summary, filename, FileOutcome(all, filename, env))
  {
    var text := env.contents(filename);
    if text.None? || |Strip(text.value)| < Whitepapers.MinContentLength {
      assert FileOutcome(all, filename, env) == Fail(ReadFailed);
      return summary.(errors := summary.errors + [(filename, ReadFailed)]);
    }
    if !env.rendered(filename) {
      assert FileOutcome(all, filename, env) == Fail(RenderFailed);
      return summary.(errors := summary.errors + [(filename, RenderFailed)]);
    }
    if !env.written(OutputName(filename)) {
      assert FileOutcome(all, filename, env) == Fail(WriteFailed);
      return summary.(errors := summary.errors + [(filename, WriteFailed)]);
    }
    var meta := Lookup(all, filename).value;
    assert FileOutcome(all, filename, env) == Generated(meta.supplemental);
    if meta.supplemental {
      next := summary.(generated := summary.generated + 1, supplementalGenerated := summary.supplementalGenerated + 1);
      assert next == Record(summary, filename, Generated(true));
    } else {
      next := summary.(generated := summary.generated + 1, canonicalGenerated := summary.canonicalGenerated + 1);
      assert next == Record(summary, filename, Generated(false));
    }
  }

  /** The loop over the sorted docs files, with the set of mapped files met. */
  method ScanDocs(all: Mapping, files: seq<string>, env: Env) returns (summary: Summary, processed: set<string>)
    ensures summary == Scan(all, files, env)
    ensures processed == Processed(all, files)
  {
    summary := NoneYet;
    processed := {};
    var i := 0;
    while i < |files|
      invariant i <= |files|
      invariant summary == Scan(all, files[..i], env)
      invariant processed == Processed(all, files[..i])
    {
      var filename := files[i];
      ScanStep(all, files, i, env);
      if filename !in Keys(all) {
        var why := if IsNonChapterName(filename) then NonChapterFile else MissingFromMapping;
        assert FileOutcome(all, filename, env) == Skip(why);
        summary := summary.(skipped := summary.skipped + [(filename, why)]);
      } else {
        processed := processed + {filename};
        summary := ProcessMapped(all, filename, env, summary);
      }
      i := i + 1;
    }
    assert files[..i] == files;
  }

  /** The loop over the mapped files no docs file provided. */
  method ReportMissingFiles(missing: seq<(string, ChapterMeta)>, scanned: Summary) returns (summary: Summary)
    ensures summary == ReportMissing(missing, scanned)
  {
    summary := scanned;
    var j := 0;
    while j < |missing|
      invariant j <= |missing|
      invariant summary == ReportMissing(missing[..j], scanned)
    {
      ReportStep(missing, j, scanned);
      if missing[j].1.supplemental {
        summary := summary.(skipped := summary.skipped + [(missing[j].0, SupplementalMissing)]);
      } else {
        summary := summary.(errors := summary.errors + [(missing[j].0, RequiredMissing)]);
      }
      j := j + 1;
    }
    assert missing[..j] == missing;
  }

  /**
   * `generate_whitepapers`: the three mappings from the requirements
   * metadata, the two loops, and the verdict.
   */
  method GenerateWhitepapers(metadata: Value, files: seq<string>, env: Env) returns (r: Result<(Summary, bool), MetadataError>)
    ensures r == Generation(metadata, files, env)
  {
    var chapters := CanonicalChapters(metadata);
    if chapters.Err? {
      return Err(chapters.error);
    }
    var canonical := GetChapterMapping(chapters.value);
    if canonical.Err? {
      return Err(canonical.error);
    }
    var supplementalChapters := SupplementalChapters(metadata);
    if supplementalChapters.Err? {
      return Err(supplementalChapters.error);
    }
    var supplemental := GetSupplementalChapters(supplementalChapters.value);
    if supplemental.Err? {
      return Err(supplemental.error);
    }
    CanonicalMappingShape(chapters.value);
    var all := GetAllChapterMapping(canonical.value, supplemental.value);
    var summary, processed := ScanDocs(all, files, env);
    summary := ReportMissingFiles(MissingEntries(all, processed), summary);
    var success := summary.canonicalGenerated == |canonical.value| && summary.generated > 0 && summary.errors == [];
    return Ok((summary, success));
  }

  // ------------------------------------------------------------------ proofs

  /** `|missing|` more entries reported, and the counters untouched. */
  lemma {:induction false} ReportMissingFacts(missing: seq<(string, ChapterMeta)>, r: Summary)
    ensures var q := ReportMissing(missing, r);
      q.generated == r.generated && q.canonicalGenerated == r.canonicalGenerated
      && q.supplementalGenerated == r.supplementalGenerated
      && |q.skipped| + |q.errors| == |r.skipped| + |r.errors| + |missing|
      && (q.errors == [] ==> r.errors == [] && forall i :: 0 <= i < |missing| ==> missing[i].1.supplemental)
  {
    if missing != [] {
      var init := missing[..|missing| - 1];
      ReportMissingFacts(init, r);
      assert forall i :: 0 <= i < |init| ==> init[i] == missing[i];
    }
  }

  predicate CanonicalGenerated(all: Mapping, env: Env, f: string)
  {
    FileOutcome(all, f, env) == Generated(false)
  }

  function IsCanonicalGenerated(all: Mapping, env: Env): string -> bool
  {
    f => CanonicalGenerated(all, env, f)
  }

  /** The canonical counter counts the files generated as canonical chapters; no error means no file failed. */
  lemma {:induction false} ScanFacts(all: Mapping, files: seq<string>, env: Env)
    ensures var q := Scan(all, files, env);
      q.canonicalGenerated == |Seqs.Filter(files, IsCanonicalGenerated(all, env))|
      && (q.errors == [] ==> forall i :: 0 <= i < |files| ==> !FileOutcome(all, files[i], env).Fail?)
  {
    if files != [] {
      var init := files[..|files| - 1];
      var f := files[|files| - 1];
      ScanFacts(all, init, env);
      Seqs.InitLast(files);
      Seqs.FilterSnoc(init, f, IsCanonicalGenerated(all, env));
      assert forall i :: 0 <= i < |init| ==> init[i] == files[i];
    }
  }

  /** With every missing entry supplemental, a mapped entry is processed or supplemental. */
  lemma UnreportedIsProcessed(all: Mapping, processed: set<string>, e: (string, ChapterMeta))
    requires var missing := MissingEntries(all, processed);
      forall i :: 0 <= i < |missing| ==> missing[i].1.supplemental
    requires e in all
    ensures e.0 in processed || e.1.supplemental
  {
    var missing := MissingEntries(all, processed);
    if e.0 !in processed {
      assert e in missing;
    }
  }

  /** No file failed and every missing entry is supplemental: every canonical file was generated as canonical. */
  lemma CanonicalFilesGenerated(c: Mapping, s: Mapping, files: seq<string>, env: Env, k: string)
    requires forall k :: 0 <= k < |c| ==> !c[k].1.supplemental
    requires forall i :: 0 <= i < |files| ==> !FileOutcome(Merged(c, s), files[i], env).Fail?
    requires var missing := MissingEntries(Merged(c, s), Processed(Merged(c, s), files));
      forall i :: 0 <= i < |missing| ==> missing[i].1.supplemental
    requires k in Keys(c)
    ensures k in files && FileOutcome(Merged(c, s), k, env) == Generated(false)
  {
    var all := Merged(c, s);
    var missing := MissingEntries(all, Processed(all, files));
    MergedLookup(c, s, k);
    var v := Lookup(c, k).value;
    var j :| 0 <= j < |c| && c[j] == (k, v);
    var m :| 0 <= m < |all| && all[m] == (k, v);
    UnreportedIsProcessed(all, Processed(all, files), all[m]);
    var i :| 0 <= i < |files| && files[i] == k;
    assert !FileOutcome(all, files[i], env).Fail?;
  }

  /** A file generated as a canonical chapter is a canonical file. */
  lemma GeneratedCanonicalIsCanonical(c: Mapping, s: Mapping, env: Env, x: string)
    requires forall k :: 0 <= k < |s| ==> s[k].1.supplemental
    requires CanonicalGenerated(Merged(c, s), env, x)
    ensures x in Keys(c)
  {
    MergedLookup(c, s, x);
  }

  /**
   * In a run with the merged mapping and no error, every canonical chapter
   * file is among the docs files and was generated as a canonical chapter,
   * so the canonical counter equals the number of canonical chapters.
   */
  lemma MergedRunComplete(c: Mapping, s: Mapping, files: seq<string>, env: Env)
    requires UniqueKeys(c) && Seqs.Distinct(files)
    requires forall k :: 0 <= k < |c| ==> !c[k].1.supplemental
    requires forall k :: 0 <= k < |s| ==> s[k].1.supplemental
    ensures var r := Run(Merged(c, s), files, env);
      r.errors == [] ==>
        r.canonicalGenerated == |c|
        && forall k :: k in Keys(c) ==> k in files && FileOutcome(Merged(c, s), k, env) == Generated(false)
  {
    var all := Merged(c, s);
    var scan := Scan(all, files, env);
    var missing := MissingEntries(all, Processed(all, files));
    ReportMissingFacts(missing, scan);
    if Run(all, files, env).errors == [] {
      ScanFacts(all, files, env);
      var p := IsCanonicalGenerated(all, env);
      var g := Seqs.Filter(files, p);
      Seqs.FilterDistinct(files, p);
      var ks := Keys(c);
      forall k | k in ks ensures k in files && FileOutcome(all, k, env) == Generated(false) {
        CanonicalFilesGenerated(c, s, files, env, k);
      }
      forall x ensures x in g <==> x in ks {
        if x in g {
          GeneratedCanonicalIsCanonical(c, s, env, x);
        }
        if x in ks {
          assert p(x);
        }
      }
      assert Seqs.Distinct(ks) by {
        forall i, j | 0 <= i < j < |ks| ensures ks[i] != ks[j] {
          assert ks[i] == c[i].0 && ks[j] == c[j].0;
        }
      }
      Seqs.SameElementsSameLength(g, ks);
    }
  }

  /**
   * The run succeeds exactly when it reports no error and generates at
   * least one whitepaper: with no error the canonical counter always
   * matches the canonical mapping.
   */
  lemma SuccessIff(metadata: Value, files: seq<string>, env: Env)
    requires Seqs.Distinct(files)
    ensures Generation(metadata, files, env).Ok? ==>
      var (r, ok) := Generation(metadata, files, env).value;
      ok <==> r.errors == [] && r.generated > 0
  {
    var cs := CanonicalChapters(metadata);
    var ss := SupplementalChapters(metadata);
    if cs.Ok? && ss.Ok? {
      CanonicalMappingShape(cs.value);
      SupplementalMappingShape(ss.value);
      var c := MappingOf(cs.value, CanonicalEntry);
      var s := MappingOf(ss.value, SupplementalEntry);
      if c.Ok? && s.Ok? {
        MergedRunComplete(c.value, s.value, files, env);
      }
    }
  }

  /** Every docs file and every unprocessed mapped entry is reported exactly once. */
  lemma RunAccounts(all: Mapping, files: seq<string>, env: Env)
    ensures var r := Run(all, files, env);
      r.generated == r.canonicalGenerated + r.supplementalGenerated
      && r.generated + |r.skipped| + |r.errors| == |files| + |MissingEntries(all, Processed(all, files))|
  {
    ReportMissingFacts(MissingEntries(all, Processed(all, files)), Scan(all, files, env));
  }
}
