/**
 * The chapter length analysis: every numbered chapter's content words are
 * counted once code, headings, images, link targets and formatting marks are
 * taken out; a chapter is an outlier when it has more than twice the average
 * word count, each outlier gets a recommendation, and the script fails when
 * there is an outlier or no chapter at all.
 */
module ChapterLengths {
  import opened Wrappers
  import opened Str
  import Seqs
  import Lex
  import HeadingCase

  // ------------------------------------------------------ content words

  /** `^ {4,}.*$` under MULTILINE, for one line: an indented line loses all its text. */
  function BlankIfIndented(line: string): string
  {
    if StartsWith(line, "    ") then "" else line
  }

  /** `re.sub(r'^ {4,}.*$', '', text, flags=re.MULTILINE)`. */
  function RemoveIndented(s: string): string
  {
    Join(Seqs.Map(Split(s, '\n'), BlankIfIndented), "\n")
  }

  /** Indented code is blanked line by line and the line breaks stay. */
  lemma IndentedLines(lines: seq<string>)
    requires |lines| >= 1 && forall k :: 0 <= k < |lines| ==> '\n' !in lines[k]
    ensures RemoveIndented(Join(lines, "\n")) == Join(Seqs.Map(lines, BlankIfIndented), "\n")
  {
    SplitOfJoin(lines, '\n');
  }

  /** Text none of whose lines starts with four spaces is left as it is. */
  lemma NoIndentKept(s: string)
    requires forall k :: 0 <= k < |Split(s, '\n')| ==> !StartsWith(Split(s, '\n')[k], "    ")
    ensures RemoveIndented(s) == s
  {
    Seqs.MapFixed(Split(s, '\n'), BlankIfIndented);
    JoinSplit(s, '\n');
  }

  /**
   * `re.sub(r'`[^`]*`', '', text)`: a backtick, any run of other characters,
   * line breaks included, and the next backtick are deleted; a backtick with
   * no later backtick stays.
   */
  function RemoveCode(s: string): (r: string)
    ensures |r| <= |s|
    decreases |s|
  {
    if s == [] then []
    else if s[0] != '`' then [s[0]] + RemoveCode(s[1..])
    else if '`' !in s[1..] then s
    else
      var q := FirstIndexOf(s[1..], '`');
      RemoveCode(s[q + 2..])
  }

  /** Backtick-free text in front is kept as it is, and the rest is processed on its own. */
  lemma {:induction false} CodeAfterPlain(a: string, rest: string)
    requires '`' !in a
    ensures RemoveCode(a + rest) == a + RemoveCode(rest)
    decreases |a|
  {
    if a != [] {
      var s := a + rest;
      assert s[0] == a[0] && s[1..] == a[1..] + rest;
      CodeAfterPlain(a[1..], rest);
      assert a == [a[0]] + a[1..];
    } else {
      assert a + rest == rest;
    }
  }

  /** A code span, even an empty one, is deleted with its backticks. */
  lemma CodeSpanRemoved(a: string, code: string, b: string)
    requires '`' !in a && '`' !in code
    ensures RemoveCode(a + ("`" + code + "`" + b)) == a + RemoveCode(b)
  {
    CodeAfterPlain(a, "`" + code + "`" + b);
    CodeSpanAtFront(code, b);
  }

  lemma CodeSpanAtFront(code: string, b: string)
    requires '`' !in code
    ensures RemoveCode("`" + code + "`" + b) == RemoveCode(b)
  {
    var s := "`" + code + "`" + b;
    assert s[1..] == code + ['`'] + b;
    FirstIndexAfter(code, '`', b);
    assert s[|code| + 2..] == b;
  }

  predicate IsHash(c: char) { c == '#' }

  predicate NotNewline(c: char) { c != '\n' }

  /**
   * The length of the match of `^#{1,6}\s+.*$` at a line start, or 0: one to
   * six hash marks, then whitespace (which may run over line breaks), then
   * the rest of that line.
   */
  function HeadingMatch(s: string): (e: nat)
    ensures e <= |s|
    ensures e > 0 ==> 1 <= Span(s, IsHash) <= 6 && Span(s, IsHash) < e
  {
    var h := Span(s, IsHash);
    if 1 <= h <= 6 && h < |s| && IsSpace(s[h]) then
      var w := h + Span(s[h..], IsSpace);
      w + Span(s[w..], NotNewline)
    else 0
  }

  /**
   * `re.sub(r'^#{1,6}\s+.*$', '', text, flags=re.MULTILINE)`, scanning from a
   * line start when `atLineStart`: each heading match is deleted.
   */
  function RemoveHeadings(s: string, atLineStart: bool): (r: string)
    ensures |r| <= |s|
    decreases |s|
  {
    if s == [] then []
    else if atLineStart && HeadingMatch(s) > 0 then RemoveHeadings(s[HeadingMatch(s)..], false)
    else [s[0]] + RemoveHeadings(s[1..], s[0] == '\n')
  }

  /** A heading line `#… text` is deleted up to, not including, its line break. */
  lemma HeadingLineRemoved(hashes: string, text: string, rest: string)
    requires 1 <= |hashes| <= 6 && forall i :: 0 <= i < |hashes| ==> hashes[i] == '#'
    requires text != [] && !IsSpace(text[0]) && '\n' !in text
    ensures RemoveHeadings(hashes + (" " + (text + ("\n" + rest))), true) == "\n" + RemoveHeadings(rest, true)
  {
    var s := hashes + (" " + (text + ("\n" + rest)));
    var e := |hashes| + 1 + |text|;
    HeadingLineMatch(hashes, text, rest);
    assert HeadingMatch(s) == e;
    HeadingStep(s);
    assert RemoveHeadings(s, true) == RemoveHeadings(s[e..], false);
    HeadingTail(hashes, text, "\n" + rest);
    assert s[e..] == "\n" + rest;
    NewlineStep(rest);
  }

  /** At a line start a heading match is deleted whole. */
  lemma HeadingStep(s: string)
    requires HeadingMatch(s) > 0
    ensures RemoveHeadings(s, true) == RemoveHeadings(s[HeadingMatch(s)..], false)
  {
  }

  lemma HeadingTail(hashes: string, text: string, tail: string)
    ensures (hashes + (" " + (text + tail)))[|hashes| + 1 + |text|..] == tail
  {
    var s := hashes + (" " + (text + tail));
    assert s[|hashes|..] == " " + (text + tail);
    assert (" " + (text + tail))[1..] == text + tail;
  }

  lemma HeadingLineMatch(hashes: string, text: string, rest: string)
    requires 1 <= |hashes| <= 6 && forall i :: 0 <= i < |hashes| ==> hashes[i] == '#'
    requires text != [] && !IsSpace(text[0]) && '\n' !in text
    ensures HeadingMatch(hashes + (" " + (text + ("\n" + rest)))) == |hashes| + 1 + |text|
  {
    var v := text + ("\n" + rest);
    var u := " " + v;
    var s := hashes + u;
    var h := |hashes|;
    HashRun(hashes, u);
    assert s[h..] == u;
    SpaceRun(v);
    assert s[h + 1..] == v;
    LineRun(text, rest);
    HeadingMatchFrom(s, h, 1, |text|);
  }

  lemma HashRun(hashes: string, u: string)
    requires forall i :: 0 <= i < |hashes| ==> hashes[i] == '#'
    requires u != [] && u[0] == ' '
    ensures Span(hashes + u, IsHash) == |hashes|
  {
    SpanOfPrefix(hashes, u, IsHash);
  }

  lemma SpaceRun(u: string)
    requires u != [] && !IsSpace(u[0])
    ensures Span(" " + u, IsSpace) == 1
  {
    SpanOfPrefix(" ", u, IsSpace);
  }

  lemma LineRun(text: string, rest: string)
    requires '\n' !in text
    ensures Span(text + ("\n" + rest), NotNewline) == |text|
  {
    SpanOfPrefix(text, "\n" + rest, NotNewline);
  }

  /** The match length put together from its three runs. */
  lemma HeadingMatchFrom(s: string, h: nat, w: nat, e: nat)
    requires 1 <= h <= 6 && h < |s| && IsSpace(s[h])
    requires Span(s, IsHash) == h && Span(s[h..], IsSpace) == w
    requires h + w <= |s| && Span(s[h + w..], NotNewline) == e
    ensures HeadingMatch(s) == h + w + e
  {
  }

  /** A line break is kept and the scan goes on at a line start. */
  lemma NewlineStep(rest: string)
    ensures RemoveHeadings("\n" + rest, false) == "\n" + RemoveHeadings(rest, true)
  {
    var u := "\n" + rest;
    assert u[1..] == rest;
  }

  /** Text without a hash mark is left as it is. */
  lemma {:induction false} NoHashKept(s: string, atLineStart: bool)
    requires '#' !in s
    ensures RemoveHeadings(s, atLineStart) == s
    decreases |s|
  {
    if s != [] {
      NoHashKept(s[1..], s[0] == '\n');
    }
  }

  const LinkTarget := "]("

  /**
   * The length of the match of `!\[.*?\]\([^)]*\)` at the front of `s`, or 0:
   * `![`, then up to the nearest `](` on the same line, then everything up to
   * and including the next `)`, line breaks included.
   */
  function ImageMatch(s: string): (e: nat)
    ensures e <= |s|
    ensures e > 0 ==> e >= 5 && s[0] == '!'
  {
    if |s| >= 2 && s[0] == '!' && s[1] == '[' then
      var t := s[2..];
      var p := FindFrom(t, LinkTarget, 0);
      if p >= 0 && '\n' !in t[..p] && ')' in t[p + 2..] then
        2 + p + 2 + FirstIndexOf(t[p + 2..], ')') + 1
      else 0
    else 0
  }

  /** `re.sub(r'!\[.*?\]\([^)]*\)', '', text)`: each image match is deleted. */
  function RemoveImages(s: string): (r: string)
    ensures |r| <= |s|
    decreases |s|
  {
    if s == [] then []
    else if ImageMatch(s) > 0 then RemoveImages(s[ImageMatch(s)..])
    else [s[0]] + RemoveImages(s[1..])
  }

  /** The first `](` after text without `]` is the one right after it. */
  lemma TargetAfter(alt: string, rest: string)
    requires ']' !in alt
    ensures FindFrom(alt + LinkTarget + rest, LinkTarget, 0) == |alt|
  {
    var t := alt + LinkTarget + rest;
    assert OccursAt(t, LinkTarget, |alt|);
    forall i | 0 <= i < |alt| ensures !OccursAt(t, LinkTarget, i) {
      assert t[i] == alt[i];
    }
  }

  lemma ImageMatchOf(alt: string, url: string, b: string)
    requires ']' !in alt && '\n' !in alt && ')' !in url
    ensures ImageMatch("![" + alt + "](" + url + ")" + b) == |alt| + |url| + 5
  {
    var s := "![" + alt + "](" + url + ")" + b;
    var t := s[2..];
    var tail := url + [')'] + b;
    assert t == alt + LinkTarget + tail;
    TargetAfter(alt, tail);
    assert t[..|alt|] == alt;
    assert t[|alt| + 2..] == tail;
    FirstIndexAfter(url, ')', b);
  }

  /** An image reference is deleted whole. */
  lemma ImageRemoved(alt: string, url: string, b: string)
    requires ']' !in alt && '\n' !in alt && ')' !in url
    ensures RemoveImages("![" + alt + "](" + url + ")" + b) == RemoveImages(b)
  {
    var s := "![" + alt + "](" + url + ")" + b;
    ImageMatchOf(alt, url, b);
    assert s[|alt| + |url| + 5..] == b;
  }

  /** Text without `!` is left as it is. */
  lemma {:induction false} NoBangKept(s: string)
    requires '!' !in s
    ensures RemoveImages(s) == s
    decreases |s|
  {
    if s != [] {
      assert s[0] != '!';
      NoBangKept(s[1..]);
    }
  }

  /**
   * The match of `\[([^\]]*)\]\([^)]*\)` at the front of `s`: its group, the
   * text up to the first `]`, which `(` must follow, and its length, which
   * runs to the next `)`.
   */
  function LinkMatch(s: string): (m: Option<(string, nat)>)
    ensures m.Some? ==> 4 <= m.value.1 <= |s|
  {
    if |s| >= 1 && s[0] == '[' && ']' in s[1..] then
      var t := s[1..];
      var q := FirstIndexOf(t, ']');
      if q + 1 < |t| && t[q + 1] == '(' && ')' in t[q + 2..] then
        Some((t[..q], 1 + q + 2 + FirstIndexOf(t[q + 2..], ')') + 1))
      else None
    else None
  }

  /** `re.sub(r'\[([^\]]*)\]\([^)]*\)', r'\1', text)`: each link becomes its text. */
  function RemoveLinks(s: string): (r: string)
    ensures |r| <= |s|
    decreases |s|
  {
    if s == [] then []
    else match LinkMatch(s) {
      case Some((text, e)) => text + RemoveLinks(s[e..])
      case None => [s[0]] + RemoveLinks(s[1..])
    }
  }

  lemma LinkMatchOf(text: string, url: string, b: string)
    requires ']' !in text && ')' !in url
    ensures LinkMatch("[" + text + "](" + url + ")" + b) == Some((text, |text| + |url| + 4))
  {
    var s := "[" + text + "](" + url + ")" + b;
    var t := s[1..];
    assert t == text + [']'] + ("(" + url + ")" + b);
    FirstIndexAfter(text, ']', "(" + url + ")" + b);
    assert t[..|text|] == text;
    assert t[|text| + 2..] == url + [')'] + b;
    FirstIndexAfter(url, ')', b);
  }

  /** A link keeps its text and loses its target. */
  lemma LinkKeepsText(text: string, url: string, b: string)
    requires ']' !in text && ')' !in url
    ensures RemoveLinks("[" + text + "](" + url + ")" + b) == text + RemoveLinks(b)
  {
    var s := "[" + text + "](" + url + ")" + b;
    LinkMatchOf(text, url, b);
    assert s[|text| + |url| + 4..] == b;
  }

  /** Text without `[` is left as it is. */
  lemma {:induction false} NoBracketKept(s: string)
    requires '[' !in s
    ensures RemoveLinks(s) == s
    decreases |s|
  {
    if s != [] {
      NoBracketKept(s[1..]);
    }
  }

  /** The formatting characters `[*_~`#\[\]()!-]`. */
  predicate IsMark(c: char)
  {
    c == '*' || c == '_' || c == '~' || c == '`' || c == '#' || c == '[' || c == ']'
    || c == '(' || c == ')' || c == '!' || c == '-'
  }

  function MarkToSpace(c: char): char { if IsMark(c) then ' ' else c }

  /** `re.sub(r'[*_~`#\[\]()!-]', ' ', text)`: each formatting character becomes a space, the rest stays. */
  function RemoveMarks(s: string): (r: string)
    ensures |r| == |s|
    ensures forall i :: 0 <= i < |s| ==> r[i] == (if IsMark(s[i]) then ' ' else s[i])
    decreases |s|
  {
    if s == [] then [] else [MarkToSpace(s[0])] + RemoveMarks(s[1..])
  }

  /** The text whose words are counted. */
  function CleanedText(content: string): string
  {
    RemoveMarks(RemoveLinks(RemoveImages(RemoveHeadings(RemoveCode(RemoveIndented(HeadingCase.RemoveFenced(content))), true))))
  }

  /** `count_content_words`: `split()` tokens are never blank, so it is the number of words. */
  function CountContentWords(content: string): nat
  {
    |Words(CleanedText(content))|
  }

  /** What is left after cleaning holds no formatting character. */
  lemma CleanedHasNoMarks(content: string)
    ensures forall i :: 0 <= i < |CleanedText(content)| ==> !IsMark(CleanedText(content)[i])
  {
  }

  /** Plain prose, with no formatting character and no indented line, is counted word for word. */
  lemma PlainProseCounted(s: string)
    requires forall i :: 0 <= i < |s| ==> !IsMark(s[i])
    requires forall k :: 0 <= k < |Split(s, '\n')| ==> !StartsWith(Split(s, '\n')[k], "    ")
    ensures CountContentWords(s) == |Words(s)|
  {
    assert '`' !in s && '#' !in s && '!' !in s && '[' !in s;
    forall i: nat ensures !OccursAt(s, HeadingCase.Fence, i) {
      if i + 3 <= |s| {
        assert s[i..i + 3][0] == s[i];
      }
    }
    HeadingCase.NoFenceKept(s);
    NoIndentKept(s);
    CodeAfterPlain(s, []);
    assert s + [] == s;
    NoHashKept(s, true);
    NoBangKept(s);
    NoBracketKept(s);
    assert RemoveMarks(s) == s;
  }

  // ------------------------------------------------------ titles

  predicate IsTitleLine(line: string) { StartsWith(Strip(line), "# ") }

  /** The title taken from a list of lines: the first stripped line starting with `# `, else "Untitled". */
  function TitleOfLines(lines: seq<string>): (r: string)
    ensures (forall k :: 0 <= k < |lines| ==> !IsTitleLine(lines[k])) ==> r == "Untitled"
    ensures forall k :: 0 <= k < |lines| && IsTitleLine(lines[k]) && (forall j :: 0 <= j < k ==> !IsTitleLine(lines[j]))
              ==> r == Strip(Strip(lines[k])[2..])
  {
    if lines == [] then "Untitled"
    else if IsTitleLine(lines[0]) then Strip(Strip(lines[0])[2..])
    else
      var r := TitleOfLines(lines[1..]);
      assert forall k :: 1 <= k < |lines| ==> lines[k] == lines[1..][k - 1];
      r
  }

  /** `extract_chapter_title`. */
  function ExtractTitle(content: string): string
  {
    TitleOfLines(Split(content, '\n'))
  }

  /** A first line `# Title` gives its stripped text. */
  lemma TitleOfFirstLine(line: string, rest: string)
    requires '\n' !in line && IsTitleLine(line)
    ensures ExtractTitle(line + "\n" + rest) == Strip(Strip(line)[2..])
  {
    assert line + "\n" + rest == line + ['\n'] + rest;
    SplitCons(line, '\n', rest);
  }

  // ------------------------------------------------------ analysis

  /** A directory entry of `docs/`: its name, whether it is a regular file, and its text. */
  datatype Entry = Entry(name: string, isFile: bool, content: string)

  /** `glob('[0-9]*.md')` filtered by `is_file()`. */
  predicate IsChapterFile(e: Entry)
  {
    e.isFile && |e.name| >= 1 && '0' <= e.name[0] <= '9' && EndsWith(e.name, ".md")
  }

  function EntryName(e: Entry): string { e.name }

  /** `sorted([...])`: the chapter files in name order. */
  function ChapterFiles(entries: seq<Entry>): (r: seq<Entry>)
    ensures Lex.SortedBy(r, EntryName)
    ensures forall e :: e in r <==> e in entries && IsChapterFile(e)
  {
    var chapters := Seqs.Filter(entries, IsChapterFile);
    var r := Lex.SortBy(chapters, EntryName);
    forall e ensures e in r <==> e in chapters {
      Lex.SortByMembers(chapters, EntryName, e);
    }
    r
  }

  datatype ChapterStat = ChapterStat(filename: string, title: string, wordCount: nat)

  function StatOf(e: Entry): ChapterStat
  {
    ChapterStat(e.name, ExtractTitle(e.content), CountContentWords(e.content))
  }

  function TotalWords(stats: seq<ChapterStat>): nat
  {
    if stats == [] then 0 else TotalWords(stats[..|stats| - 1]) + stats[|stats| - 1].wordCount
  }

  /**
   * `word_count > avg_words * 2` with `avg_words = total / n`, stated without
   * division: `word_count * n > 2 * total`.
   */
  predicate Exceeds(wordCount: nat, n: nat, total: nat)
  {
    wordCount * n > 2 * total
  }

  function ExceedsIn(n: nat, total: nat): ChapterStat -> bool
  {
    (s: ChapterStat) => Exceeds(s.wordCount, n, total)
  }

  /** `summary_stats['outliers']`. */
  function Outliers(stats: seq<ChapterStat>): (r: seq<ChapterStat>)
    ensures forall s :: s in r <==> s in stats && Exceeds(s.wordCount, |stats|, TotalWords(stats))
  {
    Seqs.Filter(stats, ExceedsIn(|stats|, TotalWords(stats)))
  }

  /** When every element exceeds the bound, their sum times `n` exceeds `2 * total` times their number. */
  lemma {:induction false} SumOfExceeding(xs: seq<ChapterStat>, n: nat, total: nat)
    requires forall k :: 0 <= k < |xs| ==> Exceeds(xs[k].wordCount, n, total)
    ensures TotalWords(xs) * n >= 2 * total * |xs| + |xs|
  {
    if xs != [] {
      var init := xs[..|xs| - 1];
      var x := xs[|xs| - 1];
      assert forall k :: 0 <= k < |init| ==> init[k] == xs[k];
      SumOfExceeding(init, n, total);
      calc {
        TotalWords(xs) * n;
        == (TotalWords(init) + x.wordCount) * n;
        == TotalWords(init) * n + x.wordCount * n;
      }
    }
  }

  /** Filtering never makes the total larger. */
  lemma {:induction false} FilterTotal(xs: seq<ChapterStat>, p: ChapterStat -> bool)
    ensures TotalWords(Seqs.Filter(xs, p)) <= TotalWords(xs)
  {
    if xs != [] {
      var init := xs[..|xs| - 1];
      var x := xs[|xs| - 1];
      FilterTotal(init, p);
      var f := Seqs.Filter(init, p);
      var g := if p(x) then f + [x] else f;
      assert Seqs.Filter(xs, p) == g by {
        assert xs == init + [x];
        Seqs.FilterSnoc(init, x, p);
        assert f + [] == f;
      }
      if p(x) {
        assert g[..|g| - 1] == f && g[|g| - 1] == x;
      }
    }
  }

  /** Fewer than half of the chapters can be outliers. */
  lemma FewerThanHalfOutliers(stats: seq<ChapterStat>)
    requires stats != []
    ensures 2 * |Outliers(stats)| < |stats|
  {
    var n := |stats|;
    var total := TotalWords(stats);
    var o := Outliers(stats);
    forall k | 0 <= k < |o| ensures Exceeds(o[k].wordCount, n, total) {
      assert o[k] in o;
    }
    SumOfExceeding(o, n, total);
    FilterTotal(stats, ExceedsIn(n, total));
    HalfBound(TotalWords(o), total, n, |o|);
  }

  /** The counting step: `m` parts of a total, each over `2 * total / n`, number fewer than `n / 2`. */
  lemma HalfBound(sum: nat, total: nat, n: nat, m: nat)
    requires n > 0 && sum <= total && sum * n >= 2 * total * m + m
    ensures 2 * m < n
  {
    MulMono(sum, total, n);
    if 2 * m >= n {
      MulMono(n, 2 * m, total);
    }
  }

  lemma MulMono(a: nat, b: nat, c: nat)
    requires a <= b
    ensures a * c <= b * c
  {
  }

  /** One entry of `generate_recommendations`: the ratio and the excess over the limit are exact. */
  datatype Recommendation = Recommendation(filename: string, title: string, wordCount: nat, ratio: real, excessWords: real)

  /** `avg_words`, exactly. */
  function Mean(n: nat, total: nat): real
  {
    if n > 0 then total as real / n as real else 0.0
  }

  /** `variance_ratio`: the word count over the mean, 0 when the mean is 0. */
  function Ratio(c: nat, n: nat, total: nat): real
  {
    if Mean(n, total) > 0.0 then c as real / Mean(n, total) else 0.0
  }

  function RecommendationOf(n: nat, total: nat): ChapterStat -> Recommendation
  {
    (s: ChapterStat) =>
      Recommendation(s.filename, s.title, s.wordCount, Ratio(s.wordCount, n, total), s.wordCount as real - Mean(n, total) * 2.0)
  }

  /** One recommendation per outlier, in chapter order. */
  function Recommendations(stats: seq<ChapterStat>): (r: seq<Recommendation>)
    ensures |r| == |Outliers(stats)|
  {
    Seqs.Map(Outliers(stats), RecommendationOf(|stats|, TotalWords(stats)))
  }

  /** Every recommended chapter is more than twice the mean and over the limit by a positive number of words. */
  lemma RecommendationsExceed(stats: seq<ChapterStat>, k: nat)
    requires k < |Recommendations(stats)|
    ensures Recommendations(stats)[k].filename == Outliers(stats)[k].filename
    ensures Recommendations(stats)[k].ratio > 2.0 && Recommendations(stats)[k].excessWords > 0.0
  {
    var n := |stats|;
    var total := TotalWords(stats);
    var o := Outliers(stats);
    Seqs.MapAt(o, RecommendationOf(n, total), k);
    assert o[k] in o;
    var j :| 0 <= j < |stats| && stats[j] == o[k];
    PartOfTotal(stats, j);
    ExceedsAverage(o[k].wordCount, n, total);
  }

  /** One chapter's count is part of the total. */
  lemma {:induction false} PartOfTotal(stats: seq<ChapterStat>, j: nat)
    requires j < |stats|
    ensures stats[j].wordCount <= TotalWords(stats)
  {
    if j < |stats| - 1 {
      var init := stats[..|stats| - 1];
      PartOfTotal(init, j);
    }
  }

  /** `word_count * n > 2 * total` says the ratio to the mean is over 2 and the excess positive. */
  lemma ExceedsAverage(c: nat, n: nat, total: nat)
    requires Exceeds(c, n, total) && c <= total
    ensures n > 0 && Ratio(c, n, total) > 2.0 && c as real - Mean(n, total) * 2.0 > 0.0
  {
    OverTwiceMean(c as real, n as real, total as real);
    if Mean(n, total) > 0.0 {
      RatioOverTwo(c as real, Mean(n, total));
    }
  }

  lemma OverTwiceMean(c: real, n: real, total: real)
    requires n > 0.0 && c * n > 2.0 * total
    ensures c > 2.0 * (total / n)
  {
    assert (total / n) * n == total;
  }

  lemma RatioOverTwo(c: real, avg: real)
    requires avg > 0.0 && c > 2.0 * avg
    ensures c / avg > 2.0
  {
    assert (c / avg) * avg == c;
  }

  /** The run over a directory: no chapter files, or the statistics and the exit status. */
  datatype Outcome = NoDocs | NoChapters | Analysed(stats: seq<ChapterStat>, outliers: seq<ChapterStat>, recommendations: seq<Recommendation>, exitCode: int)

  /** The statistics of the chapter files, in file order. */
  function Stats(entries: seq<Entry>): seq<ChapterStat>
  {
    Seqs.Map(ChapterFiles(entries), StatOf)
  }

  /** The report on the statistics, with exit status 1 exactly when there is an outlier. */
  function Report(stats: seq<ChapterStat>): Outcome
  {
    Analysed(stats, Outliers(stats), Recommendations(stats), if Outliers(stats) != [] then 1 else 0)
  }

  /** `main`: a missing `docs/` directory or no chapter file stops the run with status 1. */
  function RunMain(docsExists: bool, entries: seq<Entry>): Outcome
  {
    if !docsExists then NoDocs
    else if ChapterFiles(entries) == [] then NoChapters
    else Report(Stats(entries))
  }

  /** The exit status: 1 without `docs/`, with no chapter or with an outlier, 0 otherwise. */
  function ExitCode(o: Outcome): int
  {
    match o {
      case NoDocs => 1
      case NoChapters => 1
      case Analysed(_, _, _, code) => code
    }
  }

  /** A report fails exactly when some chapter has more than twice the mean. */
  lemma ReportExitIff(stats: seq<ChapterStat>)
    ensures ExitCode(Report(stats)) == 1 <==>
              exists k :: 0 <= k < |stats| && Exceeds(stats[k].wordCount, |stats|, TotalWords(stats))
  {
    var o := Outliers(stats);
    if o != [] {
      assert o[0] in stats;
      var k :| 0 <= k < |stats| && stats[k] == o[0];
    }
    if exists k :: 0 <= k < |stats| && Exceeds(stats[k].wordCount, |stats|, TotalWords(stats)) {
      var k :| 0 <= k < |stats| && Exceeds(stats[k].wordCount, |stats|, TotalWords(stats));
      assert stats[k] in o;
    }
  }

  /** The script fails exactly when `docs/` is missing, no chapter file exists or some chapter is more than twice the mean. */
  lemma ExitIff(docsExists: bool, entries: seq<Entry>)
    ensures ExitCode(RunMain(docsExists, entries)) == 1 <==>
              !docsExists || ChapterFiles(entries) == [] ||
              exists k :: 0 <= k < |Stats(entries)| && Exceeds(Stats(entries)[k].wordCount, |Stats(entries)|, TotalWords(Stats(entries)))
  {
    if docsExists && ChapterFiles(entries) != [] {
      ReportExitIff(Stats(entries));
    }
  }
}
