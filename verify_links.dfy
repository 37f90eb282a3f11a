/**
 * The repository's link checker: it scans every source file line by line for
 * markdown links, bare web addresses and relative markdown paths, sorts each
 * link into localhost, external, internal or other, checks external links over
 * HTTP (through a cache) and internal ones against the file system, files each
 * checked link into one of five result lists and exits with 1 when any
 * external or internal link is broken.
 */
module LinkVerification {
  import opened Wrappers
  import opened Str
  import Seqs

  // ------------------------------------------------------------ extraction

  /** A link as the scan records it: the stripped URL, its 1-based line and the text it was found in. */
  datatype Link = Link(url: string, line: nat, context: string)

  /** A match of one of the link patterns: the bracketed text, the target and the index just past the match. */
  datatype Match = Match(text: string, target: string, end: nat)

  predicate NotCloseBracket(c: char) { c != ']' }

  predicate NotCloseParen(c: char) { c != ')' }

  /** No character of a span is `c` when the span's test rules `c` out. */
  lemma SpanAvoids(r: string, t: nat, c: char)
    requires t <= |r| && forall x :: 0 <= x < t ==> r[x] != c
    ensures c !in r[..t]
  {
  }

  /** The text of a bracketed link between its four delimiters. */
  lemma LinkShape(s: string, i: nat, j: nat, k: nat)
    requires i < j && j + 2 <= k < |s|
    requires s[i] == '[' && s[j] == ']' && s[j + 1] == '(' && s[k] == ')'
    ensures s[i..k + 1] == "[" + s[i + 1..j] + "](" + s[j + 2..k] + ")"
  {
    assert s[i..k + 1] == [s[i]] + s[i + 1..j] + [s[j], s[j + 1]] + s[j + 2..k] + [s[k]];
  }

  /**
   * `\[([^\]]*)\]\(([^)]+)\)` anchored at `i`: the text runs to the first `]`,
   * which must be followed by `(`, and the non-empty target runs to the first `)`.
   */
  function MdMatchAt(s: string, i: nat): (m: Option<Match>)
    ensures m.Some? ==> i < m.value.end <= |s|
    ensures m.Some? ==> s[i..m.value.end] == "[" + m.value.text + "](" + m.value.target + ")"
    ensures m.Some? ==> m.value.target != [] && ']' !in m.value.text && ')' !in m.value.target
  {
    if i < |s| && s[i] == '[' then
      var t := Span(s[i + 1..], NotCloseBracket);
      var j := i + 1 + t;
      if j + 1 < |s| && s[j + 1] == '(' then
        var u := Span(s[j + 2..], NotCloseParen);
        var k := j + 2 + u;
        if u > 0 && k < |s| then
          assert s[j] == s[i + 1..][t];
          assert s[k] == s[j + 2..][u];
          SpanAvoids(s[i + 1..], t, ']');
          SpanAvoids(s[j + 2..], u, ')');
          assert s[i + 1..j] == s[i + 1..][..t];
          assert s[j + 2..k] == s[j + 2..][..u];
          LinkShape(s, i, j, k);
          Some(Match(s[i + 1..j], s[j + 2..k], k + 1))
        else None
      else None
    else None
  }

  /**
   * `\[([^\]]*)\]\(([^)]*\.md[^)]*)\)` anchored at `i`.  Its text and target
   * are forced to the same extents as in the markdown pattern, so it matches
   * exactly where that pattern does with a target containing `.md`.
   */
  function RelMatchAt(s: string, i: nat): (m: Option<Match>)
    ensures m.Some? ==> m == MdMatchAt(s, i) && Contains(m.value.target, ".md")
  {
    var md := MdMatchAt(s, i);
    if md.Some? && Contains(md.value.target, ".md") then md else None
  }

  /** The characters `[^\s\)\]<>"\']` a bare web address may continue with. */
  predicate UrlChar(c: char)
  {
    !IsSpace(c) && c != ')' && c != ']' && c != '<' && c != '>' && c != '"' && c != '\''
  }

  /** The length of the `https?://` at `i`, or 0 when there is none. */
  function SchemeLength(s: string, i: nat): (n: nat)
    ensures n > 0 ==> i + n <= |s|
  {
    if OccursAt(s, "https://", i) then 8
    else if OccursAt(s, "http://", i) then 7
    else 0
  }

  /** A scheme starts with `http` and holds no whitespace. */
  lemma SchemeIsWeb(s: string, i: nat)
    requires SchemeLength(s, i) > 0
    ensures s[i..i + 4] == "http"
    ensures forall x :: i <= x < i + SchemeLength(s, i) ==> !IsSpace(s[x])
  {
    var scheme := if SchemeLength(s, i) == 8 then "https://" else "http://";
    assert s[i..i + |scheme|] == scheme;
    assert s[i..i + 4] == s[i..i + |scheme|][..4];
    forall x | i <= x < i + |scheme|
      ensures !IsSpace(s[x])
    {
      assert s[x] == scheme[x - i];
    }
  }

  lemma PlainTargetUnspaced(s: string, i: nat, n: nat, rest: string, u: nat)
    requires i + n + u <= |s| && rest == s[i + n..]
    requires forall x :: i <= x < i + n ==> !IsSpace(s[x])
    requires forall x :: 0 <= x < u ==> UrlChar(rest[x])
    ensures NoSpace(s[i..i + n + u])
  {
    var target := s[i..i + n + u];
    forall x | 0 <= x < n + u
      ensures !IsSpace(target[x])
    {
      assert target[x] == s[i + x];
      if x >= n {
        assert s[i + x] == rest[x - n];
      }
    }
  }

  /** `https?://[^\s\)\]<>"\']+` anchored at `i`; the whole match is the target. */
  function PlainMatchAt(s: string, i: nat): (m: Option<Match>)
    ensures m.Some? ==> i < m.value.end <= |s| && m.value.target == s[i..m.value.end]
    ensures m.Some? ==> StartsWith(m.value.target, "http") && NoSpace(m.value.target)
  {
    var n := SchemeLength(s, i);
    if n == 0 then None
    else
      var u := Span(s[i + n..], UrlChar);
      if u == 0 then None
      else
        SchemeIsWeb(s, i);
        PlainTargetUnspaced(s, i, n, s[i + n..], u);
        assert s[i..i + n + u][..4] == s[i..i + 4];
        Some(Match("", s[i..i + n + u], i + n + u))
  }

  /** The three patterns a line is scanned with. */
  datatype Pattern = MarkdownLink | PlainUrl | RelativePath

  function MatchAt(pat: Pattern, s: string, i: nat): (m: Option<Match>)
    ensures m.Some? ==> i < m.value.end <= |s|
  {
    match pat
    case MarkdownLink => MdMatchAt(s, i)
    case PlainUrl => PlainMatchAt(s, i)
    case RelativePath => RelMatchAt(s, i)
  }

  /** `re.findall` from `i`: after a match the scan resumes at its end, otherwise one character later. */
  function FindAll(pat: Pattern, s: string, i: nat): seq<Match>
    decreases |s| - i
  {
    if i >= |s| then []
    else
      match MatchAt(pat, s, i)
      case Some(m) => [m] + FindAll(pat, s, m.end)
      case None => FindAll(pat, s, i + 1)
  }

  /** Every match `findall` returns is a match of the pattern at some position of the line. */
  lemma {:induction false} FindAllSource(pat: Pattern, s: string, i: nat, m: Match) returns (p: nat)
    requires m in FindAll(pat, s, i)
    ensures i <= p && MatchAt(pat, s, p) == Some(m)
    decreases |s| - i
  {
    match MatchAt(pat, s, i)
    case Some(m0) =>
      if m == m0 {
        p := i;
      } else {
        p := FindAllSource(pat, s, m0.end, m);
      }
    case None =>
      p := FindAllSource(pat, s, i + 1, m);
  }

  function MdLink(n: nat, m: Match): Link
  {
    Link(Strip(m.target), n, "[" + m.text + "](" + m.target + ")")
  }

  function MdLinkAt(n: nat): Match -> Link
  {
    (m: Match) => MdLink(n, m)
  }

  /** A relative path is recorded unless it starts with `http`. */
  function RelLinkAt(n: nat): Match -> seq<Link>
  {
    (m: Match) => if StartsWith(m.target, "http") then [] else [MdLink(n, m)]
  }

  /** `url in link[0]` for a link recorded on line `n`. */
  predicate CoveredBy(l: Link, n: nat, url: string)
  {
    l.line == n && Contains(l.url, url)
  }

  /** Some link already recorded on line `n` contains `url`. */
  predicate Covered(links: seq<Link>, n: nat, url: string)
  {
    exists k :: 0 <= k < |links| && CoveredBy(links[k], n, url)
  }

  /** The bare web addresses of line `n`, each recorded unless a link of the same line already contains it. */
  function AddPlain(links: seq<Link>, n: nat, urls: seq<Match>): seq<Link>
  {
    if urls == [] then links
    else
      var acc := AddPlain(links, n, urls[..|urls| - 1]);
      var u := urls[|urls| - 1].target;
      if Covered(acc, n, u) then acc else acc + [Link(Strip(u), n, u)]
  }

  /** The links after line `n` is scanned: its markdown links, then its bare addresses, then its relative paths. */
  function LineLinks(links: seq<Link>, n: nat, line: string): seq<Link>
  {
    var md := links + Seqs.Map(FindAll(MarkdownLink, line, 0), MdLinkAt(n));
    AddPlain(md, n, FindAll(PlainUrl, line, 0)) + Seqs.FlatMap(FindAll(RelativePath, line, 0), RelLinkAt(n))
  }

  /** The links of a file's lines, numbered from 1. */
  function Extracted(lines: seq<string>): seq<Link>
  {
    if lines == [] then []
    else LineLinks(Extracted(lines[..|lines| - 1]), |lines|, lines[|lines| - 1])
  }

  /** The links of a file, given its text or `None` when it cannot be read (then there are none). */
  function LinksOf(content: Option<string>): seq<Link>
  {
    if content.None? then [] else Extracted(Split(content.value, '\n'))
  }

  /** The bare-address loop of one line. */
  method AddPlainUrls(links0: seq<Link>, n: nat, urls: seq<Match>) returns (links: seq<Link>)
    ensures links == AddPlain(links0, n, urls)
  {
    links := links0;
    var j := 0;
    while j < |urls|
      invariant 0 <= j <= |urls|
      invariant links == AddPlain(links0, n, urls[..j])
    {
      assert urls[..j + 1][..j] == urls[..j];
      var url := urls[j].target;
      if !Covered(links, n, url) {
        links := links + [Link(Strip(url), n, url)];
      }
      j := j + 1;
    }
    assert urls[..j] == urls;
  }

  /** The markdown-link loop of one line. */
  method AddMarkdownLinks(links0: seq<Link>, n: nat, mdLinks: seq<Match>) returns (links: seq<Link>)
    ensures links == links0 + Seqs.Map(mdLinks, MdLinkAt(n))
  {
    links := links0;
    var j := 0;
    while j < |mdLinks|
      invariant 0 <= j <= |mdLinks|
      invariant links == links0 + Seqs.Map(mdLinks[..j], MdLinkAt(n))
    {
      Seqs.PrefixSnoc(mdLinks, j);
      Seqs.MapSnoc(mdLinks[..j], mdLinks[j], MdLinkAt(n));
      links := links + [MdLink(n, mdLinks[j])];
      j := j + 1;
    }
    assert mdLinks[..j] == mdLinks;
  }

  lemma RelativeStep(links0: seq<Link>, n: nat, rs: seq<Match>, j: nat)
    requires j < |rs|
    ensures links0 + Seqs.FlatMap(rs[..j + 1], RelLinkAt(n)) ==
            links0 + Seqs.FlatMap(rs[..j], RelLinkAt(n)) + (if StartsWith(rs[j].target, "http") then [] else [MdLink(n, rs[j])])
  {
    Seqs.PrefixSnoc(rs, j);
    Seqs.FlatMapSnoc(rs[..j], rs[j], RelLinkAt(n));
    Seqs.AppendAssoc(links0, Seqs.FlatMap(rs[..j], RelLinkAt(n)), RelLinkAt(n)(rs[j]));
  }

  /** The relative-path loop of one line. */
  method AddRelativePaths(links0: seq<Link>, n: nat, relPaths: seq<Match>) returns (links: seq<Link>)
    ensures links == links0 + Seqs.FlatMap(relPaths, RelLinkAt(n))
  {
    links := links0;
    var j := 0;
    while j < |relPaths|
      invariant 0 <= j <= |relPaths|
      invariant links == links0 + Seqs.FlatMap(relPaths[..j], RelLinkAt(n))
    {
      RelativeStep(links0, n, relPaths, j);
      if !StartsWith(relPaths[j].target, "http") {
        links := links + [MdLink(n, relPaths[j])];
      }
      j := j + 1;
    }
    assert relPaths[..j] == relPaths;
  }

  /** The three scans of one line. */
  method ScanLine(links0: seq<Link>, n: nat, line: string) returns (links: seq<Link>)
    ensures links == LineLinks(links0, n, line)
  {
    links := AddMarkdownLinks(links0, n, FindAll(MarkdownLink, line, 0));
    links := AddPlainUrls(links, n, FindAll(PlainUrl, line, 0));
    links := AddRelativePaths(links, n, FindAll(RelativePath, line, 0));
  }

  /** `extract_links_from_file`, given the file's text or `None` when reading it fails. */
  method ExtractLinksFromFile(content: Option<string>) returns (links: seq<Link>)
    ensures links == LinksOf(content)
  {
    links := [];
    if content.None? {
      return;
    }
    var lines := Split(content.value, '\n');
    var i := 0;
    while i < |lines|
      invariant 0 <= i <= |lines|
      invariant links == Extracted(lines[..i])
    {
      assert lines[..i + 1][..i] == lines[..i];
      links := ScanLine(links, i + 1, lines[i]);
      i := i + 1;
    }
    assert lines[..i] == lines;
  }

  // ------------------------------------------------- properties of the scan

  /** A link recorded for line `n` whose context is a piece of that line. */
  predicate FromLine(l: Link, n: nat, line: string)
  {
    l.line == n && Contains(line, l.context)
  }

  /** A link whose line number is one of the file's and whose context is a piece of that line. */
  predicate InFile(l: Link, lines: seq<string>)
  {
    1 <= l.line <= |lines| && Contains(lines[l.line - 1], l.context)
  }

  /** A matched link's recorded context is the text of the match itself, so it occurs on the line. */
  lemma MatchOnLine(s: string, p: nat, m: Match, n: nat)
    requires MdMatchAt(s, p) == Some(m)
    ensures FromLine(MdLink(n, m), n, s)
  {
    ContainsAt(s, MdLink(n, m).context, p);
  }

  lemma MarkdownFromLine(n: nat, line: string)
    ensures forall l :: l in Seqs.Map(FindAll(MarkdownLink, line, 0), MdLinkAt(n)) ==> FromLine(l, n, line)
  {
    var mds := FindAll(MarkdownLink, line, 0);
    forall l | l in Seqs.Map(mds, MdLinkAt(n))
      ensures FromLine(l, n, line)
    {
      Seqs.MapMembers(mds, MdLinkAt(n), l);
      var k :| 0 <= k < |mds| && l == MdLinkAt(n)(mds[k]);
      var p := FindAllSource(MarkdownLink, line, 0, mds[k]);
      MatchOnLine(line, p, mds[k], n);
    }
  }

  lemma PlainOnLine(line: string)
    ensures forall m :: m in FindAll(PlainUrl, line, 0) ==> Contains(line, m.target)
  {
    forall m | m in FindAll(PlainUrl, line, 0)
      ensures Contains(line, m.target)
    {
      var p := FindAllSource(PlainUrl, line, 0, m);
      ContainsAt(line, m.target, p);
    }
  }

  lemma RelativeFromLine(n: nat, line: string)
    ensures forall l :: l in Seqs.FlatMap(FindAll(RelativePath, line, 0), RelLinkAt(n)) ==> FromLine(l, n, line)
  {
    var rels := FindAll(RelativePath, line, 0);
    forall l | l in Seqs.FlatMap(rels, RelLinkAt(n))
      ensures FromLine(l, n, line)
    {
      Seqs.FlatMapMembers(rels, RelLinkAt(n), l);
      var k :| 0 <= k < |rels| && l in RelLinkAt(n)(rels[k]);
      assert l == MdLink(n, rels[k]);
      var p := FindAllSource(RelativePath, line, 0, rels[k]);
      assert MdMatchAt(line, p) == Some(rels[k]);
      MatchOnLine(line, p, rels[k], n);
    }
  }

  /** The links a scan of one line adds all carry that line number and a context that occurs on it. */
  lemma {:induction false} AddPlainFromLine(links: seq<Link>, n: nat, line: string, urls: seq<Match>)
    requires forall m :: m in urls ==> Contains(line, m.target)
    ensures |AddPlain(links, n, urls)| >= |links| && AddPlain(links, n, urls)[..|links|] == links
    ensures forall j :: |links| <= j < |AddPlain(links, n, urls)| ==> FromLine(AddPlain(links, n, urls)[j], n, line)
  {
    if urls != [] {
      AddPlainFromLine(links, n, line, urls[..|urls| - 1]);
      assert urls[|urls| - 1] in urls;
    }
  }

  /** Every link recorded for a line: its number is the line's and its context is a piece of that line. */
  lemma LineLinksFromLine(links: seq<Link>, n: nat, line: string)
    ensures |LineLinks(links, n, line)| >= |links| && LineLinks(links, n, line)[..|links|] == links
    ensures forall j :: |links| <= j < |LineLinks(links, n, line)| ==> FromLine(LineLinks(links, n, line)[j], n, line)
  {
    var mdPart := Seqs.Map(FindAll(MarkdownLink, line, 0), MdLinkAt(n));
    var md := links + mdPart;
    var relPart := Seqs.FlatMap(FindAll(RelativePath, line, 0), RelLinkAt(n));
    MarkdownFromLine(n, line);
    PlainOnLine(line);
    RelativeFromLine(n, line);
    assert forall j :: |links| <= j < |md| ==> md[j] == mdPart[j - |links|];
    assert forall j :: |links| <= j < |md| ==> md[j] in mdPart;
    AddPlainFromLine(md, n, line, FindAll(PlainUrl, line, 0));
    var plainOut := AddPlain(md, n, FindAll(PlainUrl, line, 0));
    var r := LineLinks(links, n, line);
    assert r == plainOut + relPart;
    assert r[..|links|] == plainOut[..|md|][..|links|];
    forall j | |links| <= j < |r|
      ensures FromLine(r[j], n, line)
    {
      if j < |md| {
        assert r[j] == md[j];
      } else if j >= |plainOut| {
        assert r[j] in relPart;
      }
    }
  }

  /** Every link of a file carries a line number of the file, and its context occurs on that line. */
  lemma {:induction false} ExtractedFromLines(lines: seq<string>)
    ensures forall l :: l in Extracted(lines) ==> InFile(l, lines)
  {
    if lines != [] {
      var init := lines[..|lines| - 1];
      var before := Extracted(init);
      ExtractedFromLines(init);
      LineLinksFromLine(before, |lines|, lines[|lines| - 1]);
      var r := Extracted(lines);
      forall l | l in r
        ensures InFile(l, lines)
      {
        var j :| 0 <= j < |r| && r[j] == l;
        if j < |before| {
          assert l == before[j] && l in before;
          assert InFile(l, init);
          assert lines[l.line - 1] == init[l.line - 1];
        } else {
          assert FromLine(l, |lines|, lines[|lines| - 1]);
        }
      }
    }
  }

  /** A link that is in the list stays in it once more addresses are considered. */
  lemma {:induction false} AddPlainKeeps(links: seq<Link>, n: nat, urls: seq<Match>)
    ensures |AddPlain(links, n, urls)| >= |links| && AddPlain(links, n, urls)[..|links|] == links
  {
    if urls != [] {
      AddPlainKeeps(links, n, urls[..|urls| - 1]);
    }
  }

  /**
   * Every bare address of the line ends up inside some link of that line: it
   * is either recorded itself or skipped because a link of the line contains it.
   */
  lemma {:induction false} AddPlainCovers(links: seq<Link>, n: nat, urls: seq<Match>)
    requires forall m :: m in urls ==> m.target != [] && NoSpace(m.target)
    ensures forall m :: m in urls ==> Covered(AddPlain(links, n, urls), n, m.target)
  {
    if urls != [] {
      var init := urls[..|urls| - 1];
      var acc := AddPlain(links, n, init);
      var u := urls[|urls| - 1].target;
      assert urls[|urls| - 1] in urls;
      AddPlainCovers(links, n, init);
      var r := AddPlain(links, n, urls);
      if !Covered(acc, n, u) {
        StripUnspaced(u);
        ContainsAt(u, u, 0);
        assert CoveredBy(r[|acc|], n, u);
      }
      forall m | m in urls
        ensures Covered(r, n, m.target)
      {
        if m in init {
          var k :| 0 <= k < |acc| && CoveredBy(acc[k], n, m.target);
          assert r[k] == acc[k];
        }
      }
    }
  }

  /**
   * No bare address is recorded when a link already recorded on its line
   * contains it: every link the address scan adds was not covered before it.
   */
  lemma {:induction false} AddPlainSkipsCovered(links: seq<Link>, n: nat, urls: seq<Match>)
    ensures forall j :: |links| <= j < |AddPlain(links, n, urls)| ==>
              var r := AddPlain(links, n, urls);
              r[j].line == n && !Covered(r[..j], n, r[j].context)
  {
    if urls != [] {
      AddPlainSkipsCovered(links, n, urls[..|urls| - 1]);
      var acc := AddPlain(links, n, urls[..|urls| - 1]);
      var r := AddPlain(links, n, urls);
      AddPlainKeeps(links, n, urls[..|urls| - 1]);
      forall j | |links| <= j < |r|
        ensures r[j].line == n && !Covered(r[..j], n, r[j].context)
      {
        if j < |acc| {
          assert r[..j] == acc[..j];
        } else {
          assert r[..j] == acc;
        }
      }
    }
  }

  /** The bare addresses of a line are all web addresses that the categoriser sends to the external or localhost branch. */
  lemma PlainUrlsAreWeb(s: string, p: nat)
    requires PlainMatchAt(s, p).Some?
    ensures Categorize(Strip(PlainMatchAt(s, p).value.target)) in {Localhost, External}
  {
    var t := PlainMatchAt(s, p).value.target;
    StripUnspaced(t);
    assert t[..4] == "http";
    assert SchemeLength(s, p) > 0;
    if OccursAt(s, "https://", p) {
      assert t[..8] == s[p..p + 8];
    } else {
      assert t[..7] == s[p..p + 7];
    }
  }

  /** On a line whose every markdown match has a `.md` target, the relative-path scan finds exactly the markdown matches. */
  lemma {:induction false} RelScanIsMdScan(s: string, i: nat)
    requires forall p: nat :: MdMatchAt(s, p).Some? ==> Contains(MdMatchAt(s, p).value.target, ".md")
    ensures FindAll(RelativePath, s, i) == FindAll(MarkdownLink, s, i)
    decreases |s| - i
  {
    if i < |s| {
      assert MatchAt(RelativePath, s, i) == MatchAt(MarkdownLink, s, i);
      match MdMatchAt(s, i)
      case Some(m) => RelScanIsMdScan(s, m.end);
      case None => RelScanIsMdScan(s, i + 1);
    }
  }

  lemma {:induction false} RelLinksOfLocal(n: nat, ms: seq<Match>)
    requires forall m :: m in ms ==> !StartsWith(m.target, "http")
    ensures Seqs.FlatMap(ms, RelLinkAt(n)) == Seqs.Map(ms, MdLinkAt(n))
  {
    if ms != [] {
      assert ms[|ms| - 1] in ms;
      RelLinksOfLocal(n, ms[..|ms| - 1]);
    }
  }

  /**
   * A line whose markdown links all point at local `.md` files records each of
   * them twice: once by the markdown scan and again by the relative-path scan,
   * so every such link is checked and counted twice.
   */
  lemma RelativeLinksRecordedTwice(links: seq<Link>, n: nat, line: string)
    requires forall p: nat :: MdMatchAt(line, p).Some? ==> Contains(MdMatchAt(line, p).value.target, ".md")
    requires forall m :: m in FindAll(MarkdownLink, line, 0) ==> !StartsWith(m.target, "http")
    ensures var twice := Seqs.Map(FindAll(MarkdownLink, line, 0), MdLinkAt(n));
            LineLinks(links, n, line) == AddPlain(links + twice, n, FindAll(PlainUrl, line, 0)) + twice
  {
    RelScanIsMdScan(line, 0);
    RelLinksOfLocal(n, FindAll(MarkdownLink, line, 0));
  }

  // ---------------------------------------------------------- categories

  datatype Category = Localhost | External | Internal | Other

  /** `categorize_link`: the first of the four tests that holds. */
  function Categorize(url: string): Category
  {
    if StartsWith(url, "http://localhost") || StartsWith(url, "http://127.0.0.1") then Localhost
    else if StartsWith(url, "https://") || StartsWith(url, "http://") then External
    else if EndsWith(url, ".md") || '/' in url then Internal
    else Other
  }

  /**
   * Only addresses that start with a web scheme are fetched, local ones never;
   * a relative markdown path is internal; a name without `/` or `.md` is skipped.
   */
  lemma CategorizeSound(url: string)
    ensures Categorize(url) == External ==> StartsWith(url, "http") && !StartsWith(url, "http://localhost")
    ensures Categorize(url) == Localhost ==> StartsWith(url, "http://")
    ensures !StartsWith(url, "http") && (EndsWith(url, ".md") || '/' in url) ==> Categorize(url) == Internal
    ensures Categorize(url) == Other <==> !StartsWith(url, "http://") && !StartsWith(url, "https://") && !EndsWith(url, ".md") && '/' !in url
  {
    if StartsWith(url, "https://") {
      assert url[..4] == url[..8][..4];
    }
    if StartsWith(url, "http://") {
      assert url[..4] == url[..7][..4];
    }
    if StartsWith(url, "http://localhost") {
      assert url[..7] == url[..16][..7];
    }
    if StartsWith(url, "http://127.0.0.1") {
      assert url[..7] == url[..16][..7];
    }
  }

  // --------------------------------------------------------- HTTP checks

  /** What a request yields: a response with its status, or `HTTPError`, `URLError` or any other exception. */
  datatype Response = Reply(status: int) | HttpFailure(code: int, reason: string) | UrlFailure(reason: string) | OtherFailure(text: string)

  /** The message of a check: `OK`, `HTTP Error <code>`, `URL Error: <reason>` or `Error: <text>`. */
  datatype Outcome = OkStatus | HttpErrorCode(code: int) | UrlErrorReason(reason: string) | ErrorText(text: string)

  datatype HttpResult = HttpResult(valid: bool, message: Outcome, status: int)

  predicate Punctuation(c: char) { c == '.' || c == ',' || c == ';' || c == ':' }

  /** `url.rstrip('.,;:')`. */
  function Clean(url: string): (r: string)
    ensures |r| <= |url| && r == url[..|r|]
    ensures r == [] || !Punctuation(r[|r| - 1])
    ensures forall i :: |r| <= i < |url| ==> Punctuation(url[i])
  {
    DropWhileEnd(url, Punctuation)
  }

  lemma CleanIdempotent(url: string)
    ensures Clean(Clean(url)) == Clean(url)
  {
    DropWhileEndStops(Clean(url), Punctuation);
  }

  /** The result of a request that got through or escaped to the outer handlers (`HTTPError` is a `URLError`). */
  function Fetched(r: Response): HttpResult
  {
    match r
    case Reply(status) => HttpResult(true, OkStatus, status)
    case HttpFailure(_, reason) => HttpResult(false, UrlErrorReason(reason), 0)
    case UrlFailure(reason) => HttpResult(false, UrlErrorReason(reason), 0)
    case OtherFailure(text) => HttpResult(false, ErrorText(text), 0)
  }

  /** The check of an address: `HEAD`, and `GET` after a `HEAD` refused with 405 or 403. */
  function HttpCheck(head: string -> Response, get: string -> Response, url: string): HttpResult
  {
    match head(url)
    case HttpFailure(code, _) =>
      if code == 405 || code == 403 then Fetched(get(url))
      else HttpResult(false, HttpErrorCode(code), code)
    case other => Fetched(other)
  }

  /**
   * An address is valid exactly when `HEAD` answers, or `HEAD` is refused with
   * 405 or 403 and `GET` answers; an `HTTPError` status is reported only for
   * a refused `HEAD` with another code, and every other failure reports 0.
   */
  lemma HttpValidIff(head: string -> Response, get: string -> Response, url: string)
    ensures HttpCheck(head, get, url).valid <==>
              head(url).Reply? || (head(url).HttpFailure? && head(url).code in {403, 405} && get(url).Reply?)
    ensures !HttpCheck(head, get, url).valid ==>
              if head(url).HttpFailure? && head(url).code !in {403, 405}
              then HttpCheck(head, get, url) == HttpResult(false, HttpErrorCode(head(url).code), head(url).code)
              else HttpCheck(head, get, url).status == 0
    ensures HttpCheck(head, get, url).valid ==> HttpCheck(head, get, url).message == OkStatus
  {
  }

  /** A cache whose every address is already cleaned and holds the check of that address. */
  ghost predicate CacheSound(head: string -> Response, get: string -> Response, cache: map<string, HttpResult>)
  {
    forall k :: k in cache ==> Clean(k) == k && cache[k] == HttpCheck(head, get, k)
  }

  /**
   * The cache is consulted with the address as written but filled under its
   * cleaned form, so an address ending in `.`, `,`, `;` or `:` is never found
   * there and is requested again each time it occurs.
   */
  lemma PunctuatedNeverCached(head: string -> Response, get: string -> Response, cache: map<string, HttpResult>, url: string)
    requires CacheSound(head, get, cache)
    requires url != [] && Punctuation(url[|url| - 1])
    ensures url !in cache
  {
  }

  // ------------------------------------------------------ internal checks

  /** Where a path resolves: to nothing, to a file given relative to the repository, or to an error (a path outside the repository makes `relative_to` raise). */
  datatype Resolution = Missing | Exists(relative: string) | ResolveError(text: string)

  /** The message of an internal check. */
  datatype InternalMessage = AnchorOnly | Found(relative: string) | FileNotFound(path: string) | ResolvingFailed(text: string)

  datatype InternalResult = InternalResult(valid: bool, message: InternalMessage)

  /** `url.split('#')[0]`. */
  function PathPart(url: string): string
  {
    Split(url, '#')[0]
  }

  /** The path part is empty exactly for an empty address or one that starts with `#`. */
  lemma PathPartEmptyIff(url: string)
    ensures PathPart(url) == "" <==> url == "" || url[0] == '#'
  {
    if '#' in url {
      var i := FirstIndexOf(url, '#');
      assert PathPart(url) == url[..i];
    }
  }

  /** `verify_internal_link`: first from the linking file's directory, then from the repository root. */
  function InternalCheck(fromFile: (string, string) -> Resolution, fromRoot: string -> Resolution, file: string, url: string): InternalResult
  {
    var part := PathPart(url);
    if part == "" then InternalResult(true, AnchorOnly)
    else
      match fromFile(file, part)
      case Exists(rel) => InternalResult(true, Found(rel))
      case ResolveError(text) => InternalResult(false, ResolvingFailed(text))
      case Missing =>
        match fromRoot(part)
        case Exists(rel) => InternalResult(true, Found(rel))
        case ResolveError(text) => InternalResult(false, ResolvingFailed(text))
        case Missing => InternalResult(false, FileNotFound(part))
  }

  /**
   * An internal link is valid exactly when it is a bare anchor, or its path
   * exists from the linking file's directory, or (missing there) from the root.
   */
  lemma InternalValidIff(fromFile: (string, string) -> Resolution, fromRoot: string -> Resolution, file: string, url: string)
    ensures InternalCheck(fromFile, fromRoot, file, url).valid <==>
              url == "" || url[0] == '#'
              || fromFile(file, PathPart(url)).Exists?
              || (fromFile(file, PathPart(url)).Missing? && fromRoot(PathPart(url)).Exists?)
    ensures InternalCheck(fromFile, fromRoot, file, url).message.FileNotFound? <==>
              PathPart(url) != "" && fromFile(file, PathPart(url)).Missing? && fromRoot(PathPart(url)).Missing?
  {
    PathPartEmptyIff(url);
  }

  // ----------------------------------------------------------- the run

  /** The outside world: the two HTTP methods and path resolution from a file's directory and from the root. */
  datatype World = World(head: string -> Response, get: string -> Response,
                         fromFile: (string, string) -> Resolution, fromRoot: string -> Resolution)

  /** A file to scan: its path relative to the repository and its text, `None` when it cannot be read. */
  datatype SourceFile = SourceFile(path: string, content: Option<string>)

  /** The links of one file, as collected before any is checked. */
  datatype FileScan = FileScan(path: string, links: seq<Link>)

  datatype Status = SkippedLocalhost | SkippedOther | Fetch(http: HttpResult) | Resolve(internal: InternalResult)

  /** The `link_info` record of one checked link. */
  datatype LinkInfo = LinkInfo(url: string, file: string, line: nat, context: string, category: Category, status: Status)

  datatype Bucket = ValidLinks | Broken | Skipped | InternalValid | InternalBroken

  /** The five result lists. */
  datatype Results = Results(valid: seq<LinkInfo>, broken: seq<LinkInfo>, skipped: seq<LinkInfo>,
                             internalValid: seq<LinkInfo>, internalBroken: seq<LinkInfo>)

  const NoResults := Results([], [], [], [], [])

  function Get(r: Results, b: Bucket): seq<LinkInfo>
  {
    match b
    case ValidLinks => r.valid
    case Broken => r.broken
    case Skipped => r.skipped
    case InternalValid => r.internalValid
    case InternalBroken => r.internalBroken
  }

  /** `self.results[b].append(info)`. */
  function Add(r: Results, b: Bucket, info: LinkInfo): (r': Results)
    ensures forall c :: Get(r', c) == Get(r, c) + (if c == b then [info] else [])
  {
    match b
    case ValidLinks => r.(valid := r.valid + [info])
    case Broken => r.(broken := r.broken + [info])
    case Skipped => r.(skipped := r.skipped + [info])
    case InternalValid => r.(internalValid := r.internalValid + [info])
    case InternalBroken => r.(internalBroken := r.internalBroken + [info])
  }

  /** The lists after each checked link is appended to its bucket in turn. */
  function AddAll(r: Results, cs: seq<(Bucket, LinkInfo)>): Results
  {
    if cs == [] then r else Add(AddAll(r, cs[..|cs| - 1]), cs[|cs| - 1].0, cs[|cs| - 1].1)
  }

  /** `sum(len(v) for v in self.results.values())`. */
  function Total(r: Results): nat
  {
    |r.valid| + |r.broken| + |r.skipped| + |r.internalValid| + |r.internalBroken|
  }

  /** Where a link goes and what is recorded for it. */
  function Verdict(w: World, file: string, l: Link): (Bucket, LinkInfo)
  {
    var c := Categorize(l.url);
    match c
    case Localhost => (Skipped, LinkInfo(l.url, file, l.line, l.context, c, SkippedLocalhost))
    case External =>
      var h := HttpCheck(w.head, w.get, Clean(l.url));
      (if h.valid then ValidLinks else Broken, LinkInfo(l.url, file, l.line, l.context, c, Fetch(h)))
    case Internal =>
      var i := InternalCheck(w.fromFile, w.fromRoot, file, l.url);
      (if i.valid then InternalValid else InternalBroken, LinkInfo(l.url, file, l.line, l.context, c, Resolve(i)))
    case Other => (Skipped, LinkInfo(l.url, file, l.line, l.context, c, SkippedOther))
  }

  function VerdictIn(w: World, file: string): Link -> (Bucket, LinkInfo)
  {
    (l: Link) => Verdict(w, file, l)
  }

  function VerdictsOf(w: World): FileScan -> seq<(Bucket, LinkInfo)>
  {
    (f: FileScan) => Seqs.Map(f.links, VerdictIn(w, f.path))
  }

  function ScanOf(f: SourceFile): FileScan
  {
    FileScan(f.path, LinksOf(f.content))
  }

  predicate HasLinks(f: FileScan) { f.links != [] }

  /** `all_links`: the files with at least one link, in the order given. */
  function Scanned(files: seq<SourceFile>): seq<FileScan>
  {
    Seqs.Filter(Seqs.Map(files, ScanOf), HasLinks)
  }

  /** Every link of every scanned file with its bucket, in the order they are checked. */
  function Checked(w: World, files: seq<SourceFile>): seq<(Bucket, LinkInfo)>
  {
    Seqs.FlatMap(Scanned(files), VerdictsOf(w))
  }

  /** `total_links`. */
  function LinkCount(scans: seq<FileScan>): nat
  {
    if scans == [] then 0 else LinkCount(scans[..|scans| - 1]) + |scans[|scans| - 1].links|
  }

  /** `main`'s exit status. */
  function ExitCode(r: Results): (code: int)
    ensures code == 1 <==> r.broken != [] || r.internalBroken != []
    ensures code == 0 || code == 1
  {
    if r.broken != [] || r.internalBroken != [] then 1 else 0
  }

  lemma {:induction false} AddAllAppend(r: Results, a: seq<(Bucket, LinkInfo)>, b: seq<(Bucket, LinkInfo)>)
    ensures AddAll(r, a + b) == AddAll(AddAll(r, a), b)
    decreases |b|
  {
    if b == [] {
      assert a + b == a;
    } else {
      var init := b[..|b| - 1];
      assert (a + b)[..|a + b| - 1] == a + init;
      AddAllAppend(r, a, init);
    }
  }

  /** Each checked link lands in exactly one list, so the lists together hold as many entries as links were checked. */
  lemma {:induction false} TotalOfAddAll(r: Results, cs: seq<(Bucket, LinkInfo)>)
    ensures Total(AddAll(r, cs)) == Total(r) + |cs|
  {
    if cs != [] {
      TotalOfAddAll(r, cs[..|cs| - 1]);
    }
  }

  /** A record is in a list afterwards exactly when it was there before or a checked link with that bucket produced it. */
  lemma {:induction false} AddAllMembers(r: Results, cs: seq<(Bucket, LinkInfo)>, b: Bucket, info: LinkInfo)
    ensures info in Get(AddAll(r, cs), b) <==> info in Get(r, b) || (b, info) in cs
  {
    if cs != [] {
      var init := cs[..|cs| - 1];
      var last := cs[|cs| - 1];
      AddAllMembers(r, init, b, info);
      assert Get(AddAll(r, cs), b) == Get(AddAll(r, init), b) + (if last.0 == b then [last.1] else []);
      Seqs.InitLast(cs);
      assert (b, info) in cs <==> (b, info) in init || (b, info) == last;
    }
  }

  /** `total_links` counts exactly the links that are then checked. */
  lemma {:induction false} LinkCountChecked(w: World, scans: seq<FileScan>)
    ensures |Seqs.FlatMap(scans, VerdictsOf(w))| == LinkCount(scans)
  {
    if scans != [] {
      LinkCountChecked(w, scans[..|scans| - 1]);
    }
  }

  /**
   * A link is broken exactly when it is external and its cleaned address fails
   * the HTTP check, or internal and fails the path check; a localhost or
   * uncategorised link is skipped and never looked up.
   */
  lemma VerdictIff(w: World, file: string, l: Link)
    ensures Verdict(w, file, l).0 == Broken <==>
              Categorize(l.url) == External && !HttpCheck(w.head, w.get, Clean(l.url)).valid
    ensures Verdict(w, file, l).0 == InternalBroken <==>
              Categorize(l.url) == Internal && !InternalCheck(w.fromFile, w.fromRoot, file, l.url).valid
    ensures Verdict(w, file, l).0 == Skipped <==> Categorize(l.url) in {Localhost, Other}
    ensures Verdict(w, file, l).1.url == l.url && Verdict(w, file, l).1.line == l.line && Verdict(w, file, l).1.file == file
  {
  }

  /** The extraction phase of `verify_all_links`: the files with links, each with its links. */
  method CollectLinks(files: seq<SourceFile>) returns (allLinks: seq<FileScan>)
    ensures allLinks == Scanned(files)
  {
    allLinks := [];
    var i := 0;
    while i < |files|
      invariant 0 <= i <= |files|
      invariant allLinks == Seqs.Filter(Seqs.Map(files[..i], ScanOf), HasLinks)
    {
      var links := ExtractLinksFromFile(files[i].content);
      Seqs.PrefixSnoc(files, i);
      Seqs.MapSnoc(files[..i], files[i], ScanOf);
      Seqs.FilterSnoc(Seqs.Map(files[..i], ScanOf), ScanOf(files[i]), HasLinks);
      if links != [] {
        allLinks := allLinks + [FileScan(files[i].path, links)];
      }
      i := i + 1;
    }
    assert files[..i] == files;
  }

  /** `LinkVerifier`: its link cache and its result lists, over a fixed outside world. */
  class LinkVerifier {
    const world: World
    var results: Results
    var linkCache: map<string, HttpResult>

    ghost predicate Valid()
      reads this
    {
      CacheSound(world.head, world.get, linkCache)
    }

    constructor (world: World)
      ensures Valid() && this.world == world
      ensures results == NoResults && linkCache == map[]
    {
      this.world := world;
      results := NoResults;
      linkCache := map[];
    }

    /** `verify_http_link`: the check of the cleaned address, from the cache when the address as written is there. */
    method VerifyHttpLink(url: string) returns (r: HttpResult)
      requires Valid()
      modifies this
      ensures Valid() && results == old(results)
      ensures r == HttpCheck(world.head, world.get, Clean(url))
      ensures linkCache == if url in old(linkCache) then old(linkCache) else old(linkCache)[Clean(url) := r]
    {
      if url in linkCache {
        return linkCache[url];
      }
      var u := Clean(url);
      var head := world.head(u);
      if head.Reply? {
        r := HttpResult(true, OkStatus, head.status);
      } else if head.HttpFailure? {
        if head.code == 405 || head.code == 403 {
          var got := world.get(u);
          if got.Reply? {
            r := HttpResult(true, OkStatus, got.status);
          } else if got.OtherFailure? {
            r := HttpResult(false, ErrorText(got.text), 0);
          } else {
            r := HttpResult(false, UrlErrorReason(got.reason), 0);
          }
        } else {
          r := HttpResult(false, HttpErrorCode(head.code), head.code);
        }
      } else if head.UrlFailure? {
        r := HttpResult(false, UrlErrorReason(head.reason), 0);
      } else {
        r := HttpResult(false, ErrorText(head.text), 0);
      }
      CleanIdempotent(url);
      linkCache := linkCache[u := r];
    }

    /** One link: categorise it, check it as its category says and append its record to its list. */
    method VerifyLink(file: string, l: Link)
      requires Valid()
      modifies this
      ensures Valid()
      ensures results == Add(old(results), Verdict(world, file, l).0, Verdict(world, file, l).1)
    {
      var category := Categorize(l.url);
      if category == Localhost {
        results := Add(results, Skipped, LinkInfo(l.url, file, l.line, l.context, category, SkippedLocalhost));
      } else if category == External {
        var h := VerifyHttpLink(l.url);
        var info := LinkInfo(l.url, file, l.line, l.context, category, Fetch(h));
        if h.valid {
          results := Add(results, ValidLinks, info);
        } else {
          results := Add(results, Broken, info);
        }
      } else if category == Internal {
        var i := InternalCheck(world.fromFile, world.fromRoot, file, l.url);
        var info := LinkInfo(l.url, file, l.line, l.context, category, Resolve(i));
        if i.valid {
          results := Add(results, InternalValid, info);
        } else {
          results := Add(results, InternalBroken, info);
        }
      } else {
        results := Add(results, Skipped, LinkInfo(l.url, file, l.line, l.context, category, SkippedOther));
      }
    }

    /** The links of one scanned file, in order. */
    method VerifyFileLinks(f: FileScan)
      requires Valid()
      modifies this
      ensures Valid()
      ensures results == AddAll(old(results), VerdictsOf(world)(f))
    {
      var j := 0;
      while j < |f.links|
        invariant 0 <= j <= |f.links|
        invariant Valid()
        invariant results == AddAll(old(results), Seqs.Map(f.links[..j], VerdictIn(world, f.path)))
      {
        Seqs.PrefixSnoc(f.links, j);
        Seqs.MapSnoc(f.links[..j], f.links[j], VerdictIn(world, f.path));
        VerifyLink(f.path, f.links[j]);
        j := j + 1;
      }
      assert f.links[..j] == f.links;
    }

    /**
     * `verify_all_links`: collect the links of every file, then check them in
     * order; every link is processed once and lands in exactly one list.
     */
    method VerifyAllLinks(files: seq<SourceFile>) returns (totalLinks: nat, processed: nat)
      requires Valid()
      modifies this
      ensures Valid()
      ensures results == AddAll(old(results), Checked(world, files))
      ensures totalLinks == LinkCount(Scanned(files)) && processed == totalLinks
      ensures Total(results) == Total(old(results)) + processed
    {
      var allLinks := CollectLinks(files);
      totalLinks := LinkCount(allLinks);
      ghost var start := results;
      processed := VerifyScans(allLinks);
      LinkCountChecked(world, allLinks);
      TotalOfAddAll(start, Checked(world, files));
    }

    /** The checking phase of `verify_all_links`, file by file. */
    method VerifyScans(allLinks: seq<FileScan>) returns (processed: nat)
      requires Valid()
      modifies this
      ensures Valid()
      ensures results == AddAll(old(results), Seqs.FlatMap(allLinks, VerdictsOf(world)))
      ensures processed == LinkCount(allLinks)
    {
      processed := 0;
      var k := 0;
      while k < |allLinks|
        invariant 0 <= k <= |allLinks|
        invariant Valid()
        invariant results == AddAll(old(results), Seqs.FlatMap(allLinks[..k], VerdictsOf(world)))
        invariant processed == LinkCount(allLinks[..k])
      {
        Seqs.PrefixSnoc(allLinks, k);
        assert allLinks[..k + 1][..k] == allLinks[..k];
        Seqs.FlatMapSnoc(allLinks[..k], allLinks[k], VerdictsOf(world));
        AddAllAppend(old(results), Seqs.FlatMap(allLinks[..k], VerdictsOf(world)), VerdictsOf(world)(allLinks[k]));
        VerifyFileLinks(allLinks[k]);
        processed := processed + |allLinks[k].links|;
        k := k + 1;
      }
      Seqs.PrefixAll(allLinks);
    }
  }

  /** `main`: a fresh verifier over the given files; 1 exactly when some checked link is broken. */
  method RunMain(world: World, files: seq<SourceFile>) returns (exitCode: int, results: Results)
    ensures results == AddAll(NoResults, Checked(world, files))
    ensures exitCode == ExitCode(results)
  {
    var verifier := new LinkVerifier(world);
    var _, _ := verifier.VerifyAllLinks(files);
    results := verifier.results;
    exitCode := ExitCode(results);
  }

  /** The run fails exactly when some external or internal link of some file is broken. */
  lemma MainFailsIff(w: World, files: seq<SourceFile>)
    ensures ExitCode(AddAll(NoResults, Checked(w, files))) == 1 <==>
              exists c :: c in Checked(w, files) && (c.0 == Broken || c.0 == InternalBroken)
  {
    var cs := Checked(w, files);
    var r := AddAll(NoResults, cs);
    if r.broken != [] {
      AddAllMembers(NoResults, cs, Broken, r.broken[0]);
    }
    if r.internalBroken != [] {
      AddAllMembers(NoResults, cs, InternalBroken, r.internalBroken[0]);
    }
    if exists c :: c in cs && (c.0 == Broken || c.0 == InternalBroken) {
      var c :| c in cs && (c.0 == Broken || c.0 == InternalBroken);
      AddAllMembers(NoResults, cs, c.0, c.1);
    }
  }
}
