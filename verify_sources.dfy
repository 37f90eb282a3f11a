/**
 * The source verifier of the book's tooling: it finds the "Sources" section of
 * every chapter file, turns each list item there into a citation with its URLs,
 * ISBN and kind, checks the URLs (behind a cache) and the ISBN format, and
 * sorts every citation into exactly one of verified, broken or manual-check.
 */
module VerifySources {
  import opened Wrappers
  import opened Str
  import Seqs
  import Lex

  // ------------------------------------------------------------ line rules

  /** What a `\s*` leaves of `s`: the text after its leading whitespace. */
  function SkipSpace(s: string): string
    decreases |s|
  {
    if s != [] && IsSpace(s[0]) then SkipSpace(s[1..]) else s
  }

  lemma {:induction false} SkipSpaceIsLStrip(s: string)
    ensures SkipSpace(s) == LStrip(s)
    decreases |s|
  {
    if s != [] && IsSpace(s[0]) {
      SkipSpaceIsLStrip(s[1..]);
    }
  }

  /** The first `|w|` characters of `s`, lower-cased, are `w`. */
  predicate LowerPrefix(s: string, w: string)
    requires |w| <= |s|
    decreases |w|
  {
    w == [] || (LowerChar(s[0]) == w[0] && LowerPrefix(s[1..], w[1..]))
  }

  /** `s` starts with the lower-case word `w`, ignoring case. */
  predicate StartsWithWord(s: string, w: string) { |w| <= |s| && LowerPrefix(s, w) }

  lemma {:induction false} StartsWithWordIff(s: string, w: string)
    ensures StartsWithWord(s, w) <==> |w| <= |s| && Lower(s[..|w|]) == w
    decreases |w|
  {
    if |w| <= |s| && w != [] {
      StartsWithWordIff(s[1..], w[1..]);
      var a := Lower(s[..|w|]);
      assert a[1..] == Lower(s[1..][..|w| - 1]);
      assert a == w <==> a[0] == w[0] && a[1..] == w[1..] by {
        if a[0] == w[0] && a[1..] == w[1..] { assert a == [a[0]] + a[1..]; assert w == [w[0]] + w[1..]; }
      }
    }
  }

  /** The text after an optional leading `##\s+`. */
  function AfterMarker(line: string): string
  {
    if |line| >= 3 && line[..2] == "##" && IsSpace(line[2]) then SkipSpace(line[2..]) else line
  }

  lemma AfterMarkerSuffix(line: string)
    ensures |AfterMarker(line)| <= |line| && AfterMarker(line) == line[|line| - |AfterMarker(line)|..]
  {
    if |line| >= 3 && line[..2] == "##" && IsSpace(line[2]) {
      SkipSpaceIsLStrip(line[2..]);
      var r := LStrip(line[2..]);
      assert line[2..][|line[2..]| - |r|..] == line[|line| - |r|..];
    }
  }

  /** `Sources?`, ignoring case: the text after it, if it is there. */
  function AfterSourceWord(s: string): Option<string>
  {
    if !StartsWithWord(s, "source") then None
    else
      var t := s[6..];
      Some(if t != [] && LowerChar(t[0]) == 's' then t[1..] else t)
  }

  /** The optional group `(\s+and\s+[Rr]eferences)`, ignoring case. */
  function AfterReferences(t: string): string
  {
    if t != [] && IsSpace(t[0]) then
      var u := SkipSpace(t);
      if StartsWithWord(u, "and") && |u| > 3 && IsSpace(u[3]) then
        var v := SkipSpace(u[3..]);
        if StartsWithWord(v, "references") then v[10..] else t
      else t
    else t
  }

  /** `:?\s*$`. */
  predicate ColonThenBlank(t: string) { IsBlank(if t != [] && t[0] == ':' then t[1..] else t) }

  /**
   * `^(##\s+)?Sources?(\s+and\s+[Rr]eferences)?:?\s*$` with IGNORECASE.
   * Every repetition in the pattern is followed by a character it cannot
   * match, so each stage has one way to succeed and no backtracking is needed.
   */
  predicate IsSourcesHeading(line: string) { HeadingRest(AfterMarker(line)) }

  /** The heading pattern after the optional `##\s+`. */
  predicate HeadingRest(r: string)
  {
    match AfterSourceWord(r)
    case None => false
    case Some(t) => ColonThenBlank(AfterReferences(t))
  }

  /** `^###\s+`. */
  predicate IsSubheading(line: string) { |line| >= 4 && line[..3] == "###" && IsSpace(line[3]) }

  /** "Sources" or "sources" occurs in `s`. */
  predicate MentionsSources(s: string)
    decreases |s|
  {
    |s| >= 7 && (((s[0] == 'S' || s[0] == 's') && s[1..7] == "ources") || MentionsSources(s[1..]))
  }

  /** "Sources" or "sources" at `i`. */
  predicate SourcesAt(s: string, i: nat) { OccursAt(s, "Sources", i) || OccursAt(s, "sources", i) }

  lemma SourcesAtShift(s: string, i: nat)
    requires s != []
    ensures SourcesAt(s[1..], i) == SourcesAt(s, i + 1)
  {
    if i + 8 <= |s| { assert s[1..][i..i + 7] == s[i + 1..i + 8]; }
  }

  lemma SourcesAtFront(s: string)
    requires |s| >= 7
    ensures SourcesAt(s, 0) == ((s[0] == 'S' || s[0] == 's') && s[1..7] == "ources")
  {
    assert s[0..7] == [s[0]] + s[1..7];
  }

  lemma {:induction false} MentionsSourcesIff(s: string)
    ensures MentionsSources(s) <==> exists i: nat :: SourcesAt(s, i)
    decreases |s|
  {
    if |s| >= 7 {
      MentionsSourcesIff(s[1..]);
      SourcesAtFront(s);
      if MentionsSources(s) && !SourcesAt(s, 0) {
        var i: nat :| SourcesAt(s[1..], i);
        SourcesAtShift(s, i);
      }
      if exists i: nat :: SourcesAt(s, i) {
        var i: nat :| SourcesAt(s, i);
        if i > 0 { SourcesAtShift(s, i - 1); }
      }
    } else {
      forall i: nat ensures !SourcesAt(s, i) { }
    }
  }

  /**
   * `^##\s+(?!.*[Ss]ources)`: the whitespace before the look-ahead cannot be
   * part of a "sources", so the look-ahead may as well start at index 2 (the
   * lines have no line break for `.` to stop at).
   */
  predicate IsOtherSection(line: string)
  {
    |line| >= 3 && line[..2] == "##" && IsSpace(line[2]) && !MentionsSources(line[2..])
  }

  /** `^[-*]\s+(.+)$`. */
  predicate IsListItem(line: string) { |line| >= 3 && (line[0] == '-' || line[0] == '*') && IsSpace(line[1]) }

  /** Group 1 of the list-item pattern: the greedy `\s+` gives back one space when nothing else follows. */
  function ItemGroup(line: string): string
    requires IsListItem(line)
  {
    var rest := SkipSpace(line[1..]);
    if rest != [] then rest else line[|line| - 1..]
  }

  /** `match.group(1).strip()` is the item with its marker removed and stripped. */
  lemma ItemTextIsStripped(line: string)
    requires IsListItem(line)
    ensures Strip(ItemGroup(line)) == Strip(line[1..])
  {
    SkipSpaceIsLStrip(line[1..]);
    var rest := LStrip(line[1..]);
    StripOfLStrip(line[1..]);
    if rest == [] {
      assert IsBlank(line[1..]);
      assert IsBlank(ItemGroup(line));
    }
  }

  /** Leading blanks are skipped up to the first non-space. */
  lemma {:induction false} SkipBlankPrefix(sp: string, rest: string)
    requires IsBlank(sp)
    requires rest == [] || !IsSpace(rest[0])
    ensures SkipSpace(sp + rest) == rest
    decreases |sp|
  {
    if sp != [] {
      assert (sp + rest)[1..] == sp[1..] + rest;
      SkipBlankPrefix(sp[1..], rest);
    } else {
      assert sp + rest == rest;
    }
  }

  /** The word of a heading, "Source" or "Sources" in any case, followed by blanks. */
  predicate SourceWord(word: string)
  {
    (|word| == 6 || |word| == 7) && StartsWithWord(word, "source") && (|word| == 7 ==> LowerChar(word[6]) == 's')
  }

  /** "Source" or "Sources" in any case, followed by blanks, is a heading. */
  lemma PlainHeading(word: string, trail: string)
    requires SourceWord(word) && IsBlank(trail)
    ensures IsSourcesHeading(word + trail)
  {
    PlainHeadingRest(word, trail);
    assert (word + trail)[..2] == word[..2];
  }

  /** The pattern after the marker accepts the word and its blanks. */
  lemma PlainHeadingRest(word: string, trail: string)
    requires SourceWord(word) && IsBlank(trail)
    ensures HeadingRest(word + trail)
  {
    var line := word + trail;
    StartsWithWordAppend(word, trail, "source");
    var t := line[6..];
    if |word| == 7 {
      assert t == [word[6]] + trail;
      assert t[1..] == trail;
    } else {
      assert t == trail;
    }
    assert AfterSourceWord(line) == Some(trail);
    assert AfterReferences(trail) == trail by {
      if trail != [] && IsSpace(trail[0]) {
        SkipBlankPrefix(trail, []);
        assert trail + [] == trail;
      }
    }
  }

  /** A case-insensitive prefix of `a` is one of `a + b`. */
  lemma {:induction false} StartsWithWordAppend(a: string, b: string, w: string)
    requires StartsWithWord(a, w)
    ensures StartsWithWord(a + b, w)
    decreases |w|
  {
    if w != [] {
      assert (a + b)[1..] == a[1..] + b;
      StartsWithWordAppend(a[1..], b, w[1..]);
    }
  }

  /** The same heading after `##` and blanks. */
  lemma MarkedHeading(sp: string, word: string, trail: string)
    requires sp != [] && IsBlank(sp) && SourceWord(word) && IsBlank(trail)
    ensures IsSourcesHeading("##" + sp + word + trail)
  {
    var line := word + trail;
    var hashed := "##" + sp + line;
    assert hashed == "##" + sp + word + trail;
    assert AfterMarker(hashed) == line by {
      assert line[0] == word[0];
      MarkerSkipped(sp, line);
    }
    assert HeadingRest(line) by { PlainHeadingRest(word, trail); }
    HeadingAfterMarker(hashed, line);
  }

  lemma HeadingAfterMarker(line: string, rest: string)
    requires AfterMarker(line) == rest && HeadingRest(rest)
    ensures IsSourcesHeading(line)
  {
  }

  /** `##` and a blank run in front of a line that does not start with a blank are skipped. */
  lemma MarkerSkipped(sp: string, line: string)
    requires sp != [] && IsBlank(sp)
    requires line == [] || !IsSpace(line[0])
    ensures AfterMarker("##" + sp + line) == line
  {
    var hashed := "##" + sp + line;
    assert hashed[..2] == "##" && hashed[2] == sp[0];
    assert hashed[2..] == sp + line;
    SkipBlankPrefix(sp, line);
  }

  /** A heading always names "source", in some case. */
  lemma HeadingMentionsSource(line: string)
    requires IsSourcesHeading(line)
    ensures Contains(Lower(line), "source")
  {
    AfterMarkerSuffix(line);
    var r := AfterMarker(line);
    assert HeadingRest(r);
    assert StartsWithWord(r, "source");
    WordInSuffix(line, |line| - |r|, "source");
  }

  /** A word at the front of a suffix occurs, lower-cased, in the lower-cased whole. */
  lemma WordInSuffix(line: string, i: nat, w: string)
    requires i <= |line| && StartsWithWord(line[i..], w)
    ensures Contains(Lower(line), w)
  {
    StartsWithWordIff(line[i..], w);
    assert Lower(line)[i..i + |w|] == Lower(line[i..][..|w|]);
    ContainsAt(Lower(line), w, i);
  }

  // --------------------------------------------------------- the section scan

  /**
   * The rule a line falls under, tried in the source's order. The subheading,
   * other-section and list-item patterns exclude one another (`###` has '#'
   * where `##\s+` needs a space, and a list item starts with '-' or '*'), so
   * within a section the first rule that applies decides. A list item keeps
   * its stripped text.
   */
  datatype LineKind = HeadingLine | SubheadingLine | OtherSectionLine | ItemLine(text: string) | PlainLine

  function KindOf(line: string): LineKind
  {
    if IsSourcesHeading(line) then HeadingLine
    else if IsSubheading(line) then SubheadingLine
    else if IsOtherSection(line) then OtherSectionLine
    else if IsListItem(line) then ItemLine(Strip(ItemGroup(line)))
    else PlainLine
  }

  /** The item lines are exactly the list items, and an item's text is the item without its marker, stripped. */
  lemma ItemLineIff(line: string)
    ensures KindOf(line).ItemLine? <==> IsListItem(line)
    ensures KindOf(line).ItemLine? ==> KindOf(line).text == Strip(line[1..])
  {
    if IsListItem(line) {
      ListItemIsNoHeading(line);
      ItemTextIsStripped(line);
    }
  }

  /** A list item starts with '-' or '*', which no heading, subheading or section line does. */
  lemma ListItemIsNoHeading(line: string)
    requires IsListItem(line)
    ensures !IsSourcesHeading(line) && !IsSubheading(line) && !IsOtherSection(line)
  {
    assert line[..2][0] == line[0];
    assert AfterMarker(line) == line;
    assert !StartsWithWord(line, "source");
  }

  /** The kind of every line, in order. */
  function Kinds(lines: seq<string>): (r: seq<LineKind>)
  {
    Seqs.Map(lines, KindOf)
  }

  lemma KindAt(lines: seq<string>, k: nat)
    requires k < |lines|
    ensures |Kinds(lines)| == |lines| && Kinds(lines)[k] == KindOf(lines[k])
  {
    Seqs.MapAt(lines, KindOf, k);
  }

  /** The section flag after the lines of kinds `ks`: a heading sets it, another `##` section clears it. */
  function InSection(ks: seq<LineKind>): bool
  {
    if ks == [] then false
    else
      var before := InSection(ks[..|ks| - 1]);
      match ks[|ks| - 1]
      case HeadingLine => true
      case OtherSectionLine => false
      case _ => before
  }

  /** After a heading at `k`, no later line starts another `##` section. */
  predicate OpenSince(ks: seq<LineKind>, k: int)
  {
    0 <= k < |ks| && ks[k] == HeadingLine && forall j :: k < j < |ks| ==> ks[j] != OtherSectionLine
  }

  /** The scan is in a section exactly when a heading came and no other section followed it. */
  lemma {:induction false} InSectionIff(ks: seq<LineKind>)
    ensures InSection(ks) <==> exists k :: OpenSince(ks, k)
  {
    if ks != [] {
      var n := |ks| - 1;
      var init := ks[..n];
      InSectionIff(init);
      if ks[n] == HeadingLine {
        assert OpenSince(ks, n);
      } else if ks[n] == OtherSectionLine {
        forall k | 0 <= k < |ks| ensures !OpenSince(ks, k) {
          if k < n { assert ks[n] == OtherSectionLine; }
        }
      } else if InSection(init) {
        var k :| OpenSince(init, k);
        assert OpenSince(ks, k);
      } else {
        forall k | 0 <= k < |ks| ensures !OpenSince(ks, k) {
          if k < n && OpenSince(ks, k) { assert OpenSince(init, k); }
        }
      }
    }
  }

  // ---------------------------------------------------------------- URLs

  /** Markdown link `[text](url)` starting at `p`: its URL and the index after it. */
  function LinkAt(s: string, p: nat): (r: Option<(string, nat)>)
    requires p < |s|
    ensures r.Some? ==> p < r.value.1 <= |s|
  {
    if s[p] != '[' || ']' !in s[p + 1..] then None
    else
      var q := p + 1 + FirstIndexOf(s[p + 1..], ']');
      if q == p + 1 || q + 1 >= |s| || s[q + 1] != '(' || ')' !in s[q + 2..] then None
      else
        var e := q + 2 + FirstIndexOf(s[q + 2..], ')');
        if e == q + 2 then None else Some((s[q + 2..e], e + 1))
  }

  /** The link target is not empty and holds no ')': `[^\)]+` stops at the first one. */
  lemma LinkAtShape(s: string, p: nat)
    requires p < |s| && LinkAt(s, p).Some?
    ensures LinkAt(s, p).value.0 != [] && ')' !in LinkAt(s, p).value.0
  {
    var q := p + 1 + FirstIndexOf(s[p + 1..], ']');
    var e := q + 2 + FirstIndexOf(s[q + 2..], ')');
    assert s[q + 2..e] == s[q + 2..][..e - (q + 2)];
  }

  /** `re.findall(r'\[([^\]]+)\]\(([^\)]+)\)', s[p..])`, keeping the URL group. */
  function MarkdownLinks(s: string, p: nat): seq<string>
    decreases |s| - p
  {
    if p >= |s| then []
    else
      match LinkAt(s, p)
      case Some(link) => [link.0] + MarkdownLinks(s, link.1)
      case None => MarkdownLinks(s, p + 1)
  }

  lemma {:induction false} MarkdownLinksShape(s: string, p: nat)
    ensures forall u :: u in MarkdownLinks(s, p) ==> u != [] && ')' !in u
    decreases |s| - p
  {
    if p < |s| {
      match LinkAt(s, p)
      case Some(link) =>
        LinkAtShape(s, p);
        MarkdownLinksShape(s, link.1);
      case None =>
        MarkdownLinksShape(s, p + 1);
    }
  }

  lemma {:induction false} MarkdownLinksEmptyIff(s: string, p: nat)
    ensures MarkdownLinks(s, p) == [] <==> forall q :: p <= q < |s| ==> LinkAt(s, q).None?
    decreases |s| - p
  {
    if p < |s| && LinkAt(s, p).None? {
      MarkdownLinksEmptyIff(s, p + 1);
    }
  }

  predicate IsHttp(u: string) { StartsWith(u, "http://") || StartsWith(u, "https://") }

  /** A character the URL pattern `[^\s\)\]]` accepts. */
  predicate UrlChar(c: char) { !IsSpace(c) && c != ')' && c != ']' }

  /** The length of the scheme `https?://` at `p`, or 0. */
  function SchemeAt(s: string, p: nat): (n: nat)
    ensures n == 0 || n == 7 || n == 8
    ensures n > 0 ==> p + n <= |s|
  {
    if OccursAt(s, "https://", p) then 8 else if OccursAt(s, "http://", p) then 7 else 0
  }

  /** The end of the plain URL `https?://[^\s\)\]]+` starting at `p`, if one does. */
  function UrlEnd(s: string, p: nat): (r: Option<nat>)
    requires p <= |s|
    ensures r.Some? ==> p + SchemeAt(s, p) < r.value <= |s| && SchemeAt(s, p) > 0
  {
    var n := SchemeAt(s, p);
    if n == 0 then None
    else
      var k := Span(s[p + n..], UrlChar);
      if k == 0 then None else Some(p + n + k)
  }

  /** A plain URL starts with its scheme, which is followed by at least one URL character. */
  lemma UrlEndShape(s: string, p: nat)
    requires p <= |s| && UrlEnd(s, p).Some?
    ensures IsHttp(s[p..UrlEnd(s, p).value])
    ensures forall i :: p + SchemeAt(s, p) <= i < UrlEnd(s, p).value ==> UrlChar(s[i])
  {
    var n := SchemeAt(s, p);
    var e := UrlEnd(s, p).value;
    assert s[p..e][..n] == s[p..p + n];
    forall i | p + n <= i < e ensures UrlChar(s[i]) { assert s[i] == s[p + n..][i - (p + n)]; }
  }

  /** `re.findall(r'https?://[^\s\)\]]+', s[p..])`. */
  function PlainUrls(s: string, p: nat): seq<string>
    decreases |s| - p
  {
    if p >= |s| then []
    else
      match UrlEnd(s, p)
      case Some(e) => [s[p..e]] + PlainUrls(s, e)
      case None => PlainUrls(s, p + 1)
  }

  lemma {:induction false} PlainUrlsShape(s: string, p: nat)
    ensures forall u :: u in PlainUrls(s, p) ==> IsHttp(u)
    decreases |s| - p
  {
    if p < |s| {
      match UrlEnd(s, p)
      case Some(e) =>
        UrlEndShape(s, p);
        PlainUrlsShape(s, e);
      case None =>
        PlainUrlsShape(s, p + 1);
    }
  }

  lemma {:induction false} PlainUrlsEmptyIff(s: string, p: nat)
    ensures PlainUrls(s, p) == [] <==> forall q :: p <= q < |s| ==> UrlEnd(s, q).None?
    decreases |s| - p
  {
    if p < |s| && UrlEnd(s, p).None? {
      PlainUrlsEmptyIff(s, p + 1);
    }
  }

  /**
   * `_extract_urls`: the http(s) markdown link targets and the plain URLs.
   * The source returns `list(set(urls))`, whose order Python leaves open, so
   * the model keeps the set.
   */
  function ExtractUrls(text: string): set<string>
  {
    (set u | u in MarkdownLinks(text, 0) && IsHttp(u)) + (set u | u in PlainUrls(text, 0))
  }

  /** Every extracted URL is an http or https URL. */
  lemma ExtractUrlsAreHttp(text: string)
    ensures forall u :: u in ExtractUrls(text) ==> IsHttp(u)
  {
    PlainUrlsShape(text, 0);
  }

  /** A citation has no URL exactly when no plain URL starts anywhere and no link targets http(s). */
  lemma UrlsEmptyIff(text: string)
    ensures ExtractUrls(text) == {} <==>
      (forall q :: 0 <= q < |text| ==> UrlEnd(text, q).None?)
      && (forall u :: u in MarkdownLinks(text, 0) ==> !IsHttp(u))
  {
    PlainUrlsEmptyIff(text, 0);
    var links := MarkdownLinks(text, 0);
    var plain := PlainUrls(text, 0);
    var urls := ExtractUrls(text);
    assert urls == {} <==> plain == [] && (forall u :: u in links ==> !IsHttp(u)) by {
      if plain != [] { assert plain[0] in urls; }
      if exists u :: u in links && IsHttp(u) {
        var u :| u in links && IsHttp(u);
        assert u in urls;
      }
      if urls != {} {
        var u :| u in urls;
        assert u in links || u in plain;
      }
    }
  }

  // ---------------------------------------------------------------- ISBN

  /** The separators `[:\s-]`. */
  predicate IsSep(c: char) { c == ':' || IsSpace(c) || c == '-' }

  /** The group characters `[\d-]`. */
  predicate IsIsbnChar(c: char) { IsDigit(c) || c == '-' }

  /** "ISBN", ignoring case, at `p`. */
  predicate LabelAt(s: string, p: nat) { p <= |s| && StartsWithWord(s[p..], "isbn") }

  /** `[\d-]{10,17}` at `j`: the greedy group, when at least ten characters are there. */
  function GroupAt(s: string, j: nat): (r: Option<string>)
    requires j <= |s|
    ensures r.Some? ==> 10 <= |r.value| <= 17 && j + |r.value| <= |s| && r.value == s[j..j + |r.value|]
    ensures r.Some? ==> forall i :: 0 <= i < |r.value| ==> IsIsbnChar(r.value[i])
    ensures r.Some? && |r.value| < 17 ==> j + |r.value| == |s| || !IsIsbnChar(s[j + |r.value|])
    ensures r.None? ==> Span(s[j..], IsIsbnChar) < 10
  {
    var d := Span(s[j..], IsIsbnChar);
    if d < 10 then None
    else
      var n := if d < 17 then d else 17;
      assert forall i :: 0 <= i < n ==> s[j..j + n][i] == s[j..][i];
      Some(s[j..j + n])
  }

  /**
   * The separator run `[:\s-]*` may give back characters to the group: try
   * the run lengths `k`, `k - 1`, ..., 0 and keep the first that leaves a group.
   */
  function TryRuns(s: string, base: nat, k: nat): (r: Option<string>)
    requires base + k <= |s|
    ensures r.Some? ==> 10 <= |r.value| <= 17 && forall i :: 0 <= i < |r.value| ==> IsIsbnChar(r.value[i])
    ensures r.Some? ==> exists j: nat :: j <= k && RunGroup(s, base, j) == r
    ensures r.None? ==> forall j: nat :: j <= k ==> RunGroup(s, base, j).None?
    decreases k
  {
    match RunGroup(s, base, k)
    case Some(g) => Some(g)
    case None => if k == 0 then None else TryRuns(s, base, k - 1)
  }

  /** The group after a separator run of length `j` from `base`. */
  function RunGroup(s: string, base: nat, j: nat): (r: Option<string>)
    requires base + j <= |s|
    ensures r.Some? ==> 10 <= |r.value| <= 17 && forall i :: 0 <= i < |r.value| ==> IsIsbnChar(r.value[i])
  {
    GroupAt(s, base + j)
  }

  /** A run of `k` separators from `base`, then a group. */
  predicate GroupAfter(s: string, base: nat, k: nat)
  {
    base + k <= |s| && (forall i :: base <= i < base + k ==> IsSep(s[i])) && GroupAt(s, base + k).Some?
  }

  function SepRun(s: string, base: nat): (m: nat)
    requires base <= |s|
    ensures base + m <= |s|
  {
    Span(s[base..], IsSep)
  }

  /** Backtracking over the separator run finds a group exactly when some split leaves one. */
  lemma TryRunsIff(s: string, base: nat)
    requires base <= |s|
    ensures TryRuns(s, base, SepRun(s, base)).Some? <==> exists k :: GroupAfter(s, base, k)
  {
    var m := SepRun(s, base);
    if TryRuns(s, base, m).Some? {
      var j: nat :| j <= m && RunGroup(s, base, j) == TryRuns(s, base, m);
      assert forall i :: base <= i < base + j ==> s[i] == s[base..][i - base];
      assert GroupAfter(s, base, j);
    } else {
      forall k: nat ensures !GroupAfter(s, base, k) {
        if k <= m {
          assert RunGroup(s, base, k).None?;
        } else if base + k <= |s| {
          assert s[base + m] == s[base..][m];
        }
      }
    }
  }

  /** The edition marker "-10" or "-13" at `j`. */
  predicate EditionAt(s: string, j: nat) { j + 3 <= |s| && s[j] == '-' && s[j + 1] == '1' && (s[j + 2] == '0' || s[j + 2] == '3') }

  /** `ISBN[:\s-]*([\d-]{10,17})` matched at `p`, as the source writes it. */
  function IsbnAt(s: string, p: nat): Option<string>
    requires p <= |s|
  {
    if !LabelAt(s, p) then None else TryRuns(s, p + 4, SepRun(s, p + 4))
  }

  /** `ISBN(?:-1[03])?[:\s-]*([\d-]{10,17})` matched at `p`: the edition marker is tried first. */
  function EditionIsbnAt(s: string, p: nat): Option<string>
    requires p <= |s|
  {
    if !LabelAt(s, p) then None
    else if EditionAt(s, p + 4) && TryRuns(s, p + 7, SepRun(s, p + 7)).Some? then TryRuns(s, p + 7, SepRun(s, p + 7))
    else IsbnAt(s, p)
  }

  /** What can follow a label at `p`: a run and a group, or (when `edition`) the marker, a run and a group. */
  predicate Candidate(s: string, p: nat, k: nat, edition: bool)
  {
    LabelAt(s, p) && (GroupAfter(s, p + 4, k) || (edition && EditionAt(s, p + 4) && GroupAfter(s, p + 7, k)))
  }

  function AttemptAt(s: string, p: nat, edition: bool): Option<string>
    requires p <= |s|
  {
    if edition then EditionIsbnAt(s, p) else IsbnAt(s, p)
  }

  /** The pattern as written matches at `p` exactly when a label there is followed by a run and a group. */
  lemma IsbnAtIff(s: string, p: nat)
    requires p <= |s|
    ensures IsbnAt(s, p).Some? <==> exists k :: Candidate(s, p, k, false)
  {
    if LabelAt(s, p) {
      var b := p + 4;
      TryRunsIff(s, b);
      if exists k :: GroupAfter(s, b, k) {
        var k :| GroupAfter(s, b, k);
        assert Candidate(s, p, k, false);
      }
    }
  }

  /** The corrected pattern matches at `p` exactly when a label there is followed, with or without the marker, by a run and a group. */
  lemma EditionIsbnAtIff(s: string, p: nat)
    requires p <= |s|
    ensures EditionIsbnAt(s, p).Some? <==> exists k :: Candidate(s, p, k, true)
  {
    IsbnAtIff(s, p);
    if exists k :: Candidate(s, p, k, false) {
      var k :| Candidate(s, p, k, false);
      assert Candidate(s, p, k, true);
    }
    if LabelAt(s, p) && EditionAt(s, p + 4) {
      var b := p + 7;
      TryRunsIff(s, b);
      if exists k :: GroupAfter(s, b, k) {
        var k :| GroupAfter(s, b, k);
        assert Candidate(s, p, k, true);
      }
    }
    if exists k :: Candidate(s, p, k, true) {
      var k :| Candidate(s, p, k, true);
      if GroupAfter(s, p + 4, k) {
        assert Candidate(s, p, k, false);
      } else {
        TryRunsIff(s, p + 7);
      }
    }
  }

  lemma AttemptAtIff(s: string, p: nat, edition: bool)
    requires p <= |s|
    ensures AttemptAt(s, p, edition).Some? <==> exists k :: Candidate(s, p, k, edition)
  {
    if edition { EditionIsbnAtIff(s, p); } else { IsbnAtIff(s, p); }
  }

  /** `re.search`: the match at the leftmost position that has one. */
  function SearchIsbn(s: string, p: nat, edition: bool): Option<string>
    requires p <= |s|
    decreases |s| - p
  {
    if p + 4 > |s| then None
    else
      match AttemptAt(s, p, edition)
      case Some(g) => Some(g)
      case None => SearchIsbn(s, p + 1, edition)
  }

  /** A group is 10 to 17 digits and hyphens. */
  predicate IsbnShape(g: string) { 10 <= |g| <= 17 && forall i :: 0 <= i < |g| ==> IsIsbnChar(g[i]) }

  lemma {:induction false} SearchIsbnShape(s: string, p: nat, edition: bool)
    requires p <= |s| && SearchIsbn(s, p, edition).Some?
    ensures IsbnShape(SearchIsbn(s, p, edition).value)
    decreases |s| - p
  {
    if AttemptAt(s, p, edition).None? {
      SearchIsbnShape(s, p + 1, edition);
    }
  }

  /** `_extract_isbn` as written: the group after "ISBN", or None. */
  function ExtractIsbnAsWritten(text: string): Option<string>
  {
    SearchIsbn(text, 0, false)
  }

  /** `_extract_isbn` with the edition marker of "ISBN-13:" and "ISBN-10:" allowed. */
  function ExtractIsbn(text: string): Option<string>
  {
    SearchIsbn(text, 0, true)
  }

  /** The search finds nothing exactly when no position has a label followed by a group. */
  lemma {:induction false} SearchIsbnNoneIff(s: string, p: nat, edition: bool)
    requires p <= |s|
    ensures SearchIsbn(s, p, edition).None? <==> forall q, k :: p <= q ==> !Candidate(s, q, k, edition)
    decreases |s| - p
  {
    if p + 4 > |s| {
      forall q, k | p <= q ensures !Candidate(s, q, k, edition) { }
    } else {
      AttemptAtIff(s, p, edition);
      if AttemptAt(s, p, edition).None? {
        SearchIsbnNoneIff(s, p + 1, edition);
        forall q, k | p <= q && Candidate(s, q, k, edition) ensures p + 1 <= q { }
      }
    }
  }

  /** `ISBN-13: ...` has no group at its label: the run takes the hyphen, and "13" is too short. */
  lemma EditionMarkerDefeatsPattern(s: string, p: nat)
    requires LabelAt(s, p) && p + 8 <= |s| && EditionAt(s, p + 4) && s[p + 7] == ':'
    ensures IsbnAt(s, p) == None
  {
    var b := p + 4;
    assert s[b..][0] == '-' && s[b..][1] == s[p + 5];
    assert SepRun(s, b) == 1;
    assert s[b + 1..][2] == ':';
    assert Span(s[b + 1..], IsIsbnChar) == 2;
    assert s[b..][3] == ':';
    assert Span(s[b..], IsIsbnChar) == 3;
  }

  /** Only a label at `p`, as in "ISBN-13: 978-0-123-45678-9": the source's pattern extracts nothing. */
  lemma EditionLabelledIsbnMissed(s: string, p: nat)
    requires LabelAt(s, p) && p + 8 <= |s| && EditionAt(s, p + 4) && s[p + 7] == ':'
    requires forall q :: q != p ==> !LabelAt(s, q)
    ensures ExtractIsbnAsWritten(s) == None
  {
    EditionMarkerDefeatsPattern(s, p);
    AttemptAtIff(s, p, false);
    SearchIsbnNoneIff(s, 0, false);
  }

  /** With the marker allowed, a group after "ISBN-13:" or "ISBN-10:" is always found. */
  lemma EditionLabelledIsbnFound(s: string, p: nat, k: nat)
    requires LabelAt(s, p) && EditionAt(s, p + 4) && GroupAfter(s, p + 7, k)
    ensures ExtractIsbn(s).Some?
  {
    assert Candidate(s, p, k, true);
    SearchIsbnNoneIff(s, 0, true);
  }

  /** Characters `verify_isbn` removes: `[-\s]`. */
  predicate Kept(c: char) { c != '-' && !IsSpace(c) }

  datatype IsbnVerdict = Isbn10(ok: bool) | Isbn13(ok: bool) | BadLength(length: nat)

  predicate IsbnValid(v: IsbnVerdict) { (v.Isbn10? || v.Isbn13?) && v.ok }

  /** `verify_isbn` (the message strings are named by the verdict). */
  function VerifyIsbn(isbn: string): (r: IsbnVerdict)
  {
    var c := Seqs.Filter(isbn, Kept);
    if |c| == 10 then Isbn10(AllDigits(c[..9]) && (IsDigit(c[9]) || c[9] == 'X'))
    else if |c| == 13 then Isbn13(AllDigits(c))
    else BadLength(|c|)
  }

  /** The digits of `g`, in order. */
  function DigitsOf(g: string): (r: string)
    ensures AllDigits(r)
  {
    Seqs.Filter(g, IsDigit)
  }

  lemma {:induction false} KeptOfIsbnChars(g: string)
    requires forall i :: 0 <= i < |g| ==> IsIsbnChar(g[i])
    ensures Seqs.Filter(g, Kept) == DigitsOf(g)
  {
    if g != [] {
      var init := g[..|g| - 1];
      KeptOfIsbnChars(init);
    }
  }

  /**
   * An extracted group is valid exactly when it has 10 or 13 digits: the
   * group never holds an 'X', so an ISBN-10 whose check character is X is
   * never accepted from a citation.
   */
  lemma ExtractedIsbnValidIff(text: string)
    requires ExtractIsbn(text).Some?
    ensures IsbnValid(VerifyIsbn(ExtractIsbn(text).value)) <==> |DigitsOf(ExtractIsbn(text).value)| in {10, 13}
  {
    SearchIsbnShape(text, 0, true);
    KeptOfIsbnChars(ExtractIsbn(text).value);
  }

  /** Hyphens and white space anywhere in an ISBN do not change the verdict. */
  lemma IsbnIgnoresSeparators(a: string, c: char, b: string)
    requires !Kept(c)
    ensures VerifyIsbn(a + [c] + b) == VerifyIsbn(a + b)
  {
    var fa, fb := Seqs.Filter(a, Kept), Seqs.Filter(b, Kept);
    Seqs.FilterNone([c], Kept);
    Seqs.FilterAppend(a, [c], Kept);
    assert Seqs.Filter(a + [c], Kept) == fa + [] == fa;
    Seqs.FilterAppend(a + [c], b, Kept);
    Seqs.FilterAppend(a, b, Kept);
    assert Seqs.Filter(a + [c] + b, Kept) == fa + fb == Seqs.Filter(a + b, Kept);
  }

  /** Plain digits are judged by their count alone. */
  lemma DigitsVerdict(s: string)
    requires AllDigits(s)
    ensures VerifyIsbn(s) == if |s| == 10 then Isbn10(true) else if |s| == 13 then Isbn13(true) else BadLength(|s|)
  {
    Seqs.FilterAll(s, Kept);
  }

  // -------------------------------------------------------- classification

  datatype Kind = UrlSource | Book | Standard | Academic | OtherSource

  const StandardWords: seq<string> := ["nist", "iso", "standard", "specification"]
  const AcademicWords: seq<string> := ["arxiv", "doi", "journal", "proceedings"]

  /** `any(keyword in text for keyword in words)`. */
  predicate AnyWord(text: string, words: seq<string>)
    decreases |words|
  {
    words != [] && (Contains(text, words[0]) || AnyWord(text, words[1..]))
  }

  /** A truthy ISBN: present and not empty. */
  predicate HasIsbn(isbn: Option<string>) { isbn.Some? && isbn.value != [] }

  /** `_classify_source`: the first rule that applies. */
  function Classify(text: string, urls: set<string>, isbn: Option<string>): Kind
  {
    if urls != {} then UrlSource
    else if HasIsbn(isbn) then Book
    else if AnyWord(Lower(text), StandardWords) then Standard
    else if AnyWord(Lower(text), AcademicWords) then Academic
    else OtherSource
  }

  /** `keyword in text` for some keyword: an occurrence of one of them at some index. */
  lemma {:induction false} AnyWordIff(text: string, words: seq<string>)
    ensures AnyWord(text, words) <==> exists i, j :: 0 <= i < |words| && OccursAt(text, words[i], j)
    decreases |words|
  {
    if words != [] {
      AnyWordIff(text, words[1..]);
      ContainsIff(text, words[0]);
      if exists i, j :: 0 <= i < |words| && OccursAt(text, words[i], j) {
        var i, j :| 0 <= i < |words| && OccursAt(text, words[i], j);
        ContainsAt(text, words[i], j);
        if i > 0 { assert OccursAt(text, words[1..][i - 1], j); }
      }
      if AnyWord(text, words[1..]) {
        var i, j :| 0 <= i < |words[1..]| && OccursAt(text, words[1..][i], j);
        assert OccursAt(text, words[i + 1], j);
      }
    }
  }

  // -------------------------------------------------------- citations

  /** A citation, with what `extract_sources_from_file` stores beside its text. */
  datatype Source = Source(file: string, line: nat, text: string, urls: set<string>, isbn: Option<string>, kind: Kind)

  /**
   * The citation a list item with stripped text `text` at line `lineNo` becomes.
   * Its ISBN comes from the corrected, edition-aware `ExtractIsbn`, not from
   * `ExtractIsbnAsWritten` (see Findings in the README).
   */
  function SourceOf(file: string, lineNo: nat, text: string): Source
  {
    var urls := ExtractUrls(text);
    var isbn := ExtractIsbn(text);
    Source(file, lineNo, text, urls, isbn, Classify(text, urls, isbn))
  }

  /** The first two rules of `_classify_source`: any URL makes a URL source, otherwise an ISBN makes a book. */
  lemma ClassifyRules(text: string, urls: set<string>, isbn: Option<string>)
    ensures Classify(text, urls, isbn) == UrlSource <==> urls != {}
    ensures Classify(text, urls, isbn) == Book <==> urls == {} && HasIsbn(isbn)
  {
  }

  /** A citation is a URL source exactly when a plain URL starts somewhere in it or a markdown link targets http(s). */
  lemma ClassifyUrlSource(file: string, lineNo: nat, text: string)
    ensures SourceOf(file, lineNo, text).kind == UrlSource <==>
      (exists q :: 0 <= q < |text| && UrlEnd(text, q).Some?)
      || (exists u :: u in MarkdownLinks(text, 0) && IsHttp(u))
  {
    ClassifyRules(text, ExtractUrls(text), ExtractIsbn(text));
    UrlsEmptyIff(text);
  }

  /** A citation is a book exactly when it has no URL and "ISBN" in it is followed by a group. */
  lemma ClassifyBook(file: string, lineNo: nat, text: string)
    ensures SourceOf(file, lineNo, text).kind == Book <==>
      ExtractUrls(text) == {} && exists q: nat, k: nat :: Candidate(text, q, k, true)
  {
    ClassifyRules(text, ExtractUrls(text), ExtractIsbn(text));
    SearchIsbnNoneIff(text, 0, true);
    if ExtractIsbn(text).Some? { SearchIsbnShape(text, 0, true); }
  }

  /** Line `k` (0-based) is a list item met inside a section. */
  predicate TakenAt(ks: seq<LineKind>, k: int)
  {
    0 <= k < |ks| && ks[k].ItemLine? && InSection(ks[..k])
  }

  /** The citations of a file whose lines have kinds `ks`, in order. */
  function Entries(file: string, ks: seq<LineKind>): seq<Source>
  {
    if ks == [] then []
    else
      var n := |ks| - 1;
      Entries(file, ks[..n]) + (if TakenAt(ks, n) then [SourceOf(file, n + 1, ks[n].text)] else [])
  }

  /** The citation for line `k`, when that line is taken. */
  predicate EntryAt(file: string, ks: seq<LineKind>, k: int, e: Source)
  {
    TakenAt(ks, k) && e == SourceOf(file, k + 1, ks[k].text)
  }

  lemma PrefixTaken(ks: seq<LineKind>, n: nat, k: int)
    requires k < n <= |ks|
    ensures TakenAt(ks[..n], k) <==> TakenAt(ks, k)
  {
    if 0 <= k { assert ks[..n][..k] == ks[..k]; }
  }

  /** Every citation is the item at its line, inside a section, and every such item is a citation. */
  lemma {:induction false} EntriesMembers(file: string, ks: seq<LineKind>, e: Source)
    ensures e in Entries(file, ks) <==> exists k :: EntryAt(file, ks, k, e)
  {
    if ks != [] {
      var n := |ks| - 1;
      var init := ks[..n];
      EntriesMembers(file, init, e);
      if exists k :: EntryAt(file, ks, k, e) {
        var k :| EntryAt(file, ks, k, e);
        if k < n { PrefixTaken(ks, n, k); assert EntryAt(file, init, k, e); }
      }
      if e in Entries(file, init) {
        var k :| EntryAt(file, init, k, e);
        PrefixTaken(ks, n, k);
        assert EntryAt(file, ks, k, e);
      } else if e in Entries(file, ks) {
        assert EntryAt(file, ks, n, e);
      }
    }
  }

  /** The citations come in line order, each from its own line of the file. */
  lemma {:induction false} EntriesOrdered(file: string, ks: seq<LineKind>)
    ensures forall i :: 0 <= i < |Entries(file, ks)| ==> 1 <= Entries(file, ks)[i].line <= |ks|
    ensures forall i, j :: 0 <= i < j < |Entries(file, ks)| ==> Entries(file, ks)[i].line < Entries(file, ks)[j].line
  {
    if ks != [] {
      var n := |ks| - 1;
      EntriesOrdered(file, ks[..n]);
    }
  }

  /** A file without a sources heading has no citations. */
  lemma NoHeadingNoEntries(file: string, lines: seq<string>)
    requires forall k :: 0 <= k < |lines| ==> !IsSourcesHeading(lines[k])
    ensures Entries(file, Kinds(lines)) == []
  {
    var ks := Kinds(lines);
    var r := Entries(file, ks);
    if r != [] {
      EntriesMembers(file, ks, r[0]);
      var k :| EntryAt(file, ks, k, r[0]);
      InSectionIff(ks[..k]);
      var j :| OpenSince(ks[..k], j);
      KindAt(lines, j);
      assert false;
    }
  }

  /** The citations of one file's content; a file that cannot be read gives none. */
  function FileSources(file: string, content: Option<string>): seq<Source>
  {
    match content
    case None => []
    case Some(c) => Entries(file, Kinds(Split(c, '\n')))
  }

  /** One more line: the flag moves by its kind, and an item inside a section adds its citation. */
  lemma EntriesSnoc(file: string, ks: seq<LineKind>, k: LineKind)
    ensures InSection(ks + [k]) == match k
      case HeadingLine => true
      case OtherSectionLine => false
      case _ => InSection(ks)
    ensures Entries(file, ks + [k]) == Entries(file, ks) + (if k.ItemLine? && InSection(ks) then [SourceOf(file, |ks| + 1, k.text)] else [])
  {
    assert (ks + [k])[..|ks|] == ks;
  }

  /** The entry the loop of `extract_sources_from_file` stores for an item: its URLs, ISBN and kind. */
  method Cite(file: string, lineNo: nat, text: string) returns (s: Source)
    ensures s == SourceOf(file, lineNo, text)
  {
    var urls := ExtractUrls(text);
    var isbn := ExtractIsbn(text);
    s := Source(file, lineNo, text, urls, isbn, Classify(text, urls, isbn));
  }

  /**
   * `extract_sources_from_file` on the file's content (None when it cannot be
   * read): each line gets its kind, the patterns tried in the order the loop
   * body tries them, and the kinds are scanned with the section flag.
   */
  method ExtractSourcesFromFile(file: string, content: Option<string>) returns (sources: seq<Source>)
    ensures sources == FileSources(file, content)
  {
    sources := [];
    if content.None? { return; }
    var kinds := Kinds(Split(content.value, '\n'));
    sources := ScanLines(file, kinds);
  }

  /** The line loop of `extract_sources_from_file`, on the lines' kinds. */
  method ScanLines(file: string, kinds: seq<LineKind>) returns (sources: seq<Source>)
    ensures sources == Entries(file, kinds)
  {
    sources := [];
    var inSection := false;
    var i := 0;
    while i < |kinds|
      invariant 0 <= i <= |kinds|
      invariant inSection == InSection(kinds[..i])
      invariant sources == Entries(file, kinds[..i])
    {
      var kind := kinds[i];
      assert kinds[..i + 1] == kinds[..i] + [kind];
      EntriesSnoc(file, kinds[..i], kind);
      if kind == HeadingLine {
        inSection := true;
      } else if inSection && kind == SubheadingLine {
      } else if inSection && kind == OtherSectionLine {
        inSection := false;
      } else if inSection && kind.ItemLine? {
        var source := Cite(file, i + 1, kind.text);
        sources := sources + [source];
      }
      i := i + 1;
    }
    assert kinds[..i] == kinds;
  }

  // --------------------------------------------------------- verification

  datatype UrlStatus = SkippedLocalhost | SkippedTemplate | Probed(message: string)

  datatype UrlCheck = UrlCheck(valid: bool, status: UrlStatus)

  /** A URL the checker does not request: a local address or a template variable. */
  predicate IsSkippedUrl(url: string)
  {
    Contains(url, "localhost") || Contains(url, "127.0.0.1") || Contains(url, "${") || Contains(url, "{{")
  }

  /**
   * `verify_url` without its cache: local and template URLs are skipped as
   * valid; any other URL is given to `probe`, which stands for the HEAD/GET
   * requests and returns validity and a message.
   */
  function CheckUrl(url: string, probe: string -> (bool, string)): (r: UrlCheck)
    ensures IsSkippedUrl(url) ==> r.valid && !r.status.Probed?
    ensures !IsSkippedUrl(url) ==> r == UrlCheck(probe(url).0, Probed(probe(url).1))
  {
    if Contains(url, "localhost") || Contains(url, "127.0.0.1") then UrlCheck(true, SkippedLocalhost)
    else if Contains(url, "${") || Contains(url, "{{") then UrlCheck(true, SkippedTemplate)
    else UrlCheck(probe(url).0, Probed(probe(url).1))
  }

  datatype SourceStatus = ManualCheck | Verified | Broken

  datatype SourceResult = SourceResult(source: Source, verified: bool, status: SourceStatus)

  /** Some URL of the citation checks valid (`any(r['valid'] for r in url_results)`). */
  predicate AnyUrlValid(urls: set<string>, probe: string -> (bool, string))
  {
    exists u :: u in urls && CheckUrl(u, probe).valid
  }

  /** One more URL: the citation has a valid URL when it had one already or the new one is valid. */
  lemma AnyUrlValidAdd(seen: set<string>, url: string, probe: string -> (bool, string))
    ensures AnyUrlValid(seen + {url}, probe) == (AnyUrlValid(seen, probe) || CheckUrl(url, probe).valid)
  {
    if AnyUrlValid(seen + {url}, probe) {
      var u :| u in seen + {url} && CheckUrl(u, probe).valid;
      if u != url { assert u in seen; }
    }
  }

  /** `verify_source` on a citation (the detail lines are left out). */
  function SourceOutcome(s: Source, probe: string -> (bool, string)): SourceResult
  {
    var ok := AnyUrlValid(s.urls, probe) || (HasIsbn(s.isbn) && IsbnValid(VerifyIsbn(s.isbn.value)));
    if s.urls == {} && !HasIsbn(s.isbn) then SourceResult(s, false, ManualCheck)
    else SourceResult(s, ok, if ok then Verified else Broken)
  }

  /** A citation with a local or template URL is verified whatever the network says. */
  lemma SkippedUrlVerifies(s: Source, url: string, probe: string -> (bool, string))
    requires url in s.urls && IsSkippedUrl(url)
    ensures SourceOutcome(s, probe).status == Verified
  {
    assert CheckUrl(url, probe).valid;
  }

  /** A citation whose only identifiers fail is broken: manual checks are only for citations without any. */
  lemma SourceOutcomeRules(s: Source, probe: string -> (bool, string))
    ensures SourceOutcome(s, probe).status == ManualCheck <==> s.urls == {} && !HasIsbn(s.isbn)
    ensures SourceOutcome(s, probe).status == Verified <==> SourceOutcome(s, probe).verified
    ensures SourceOutcome(s, probe).status == Broken <==>
      (s.urls != {} || HasIsbn(s.isbn))
      && (forall u :: u in s.urls ==> !CheckUrl(u, probe).valid)
      && !(HasIsbn(s.isbn) && IsbnValid(VerifyIsbn(s.isbn.value)))
    ensures SourceOutcome(s, probe).source == s
  {
  }

  // ----------------------------------------------------------- the buckets

  function Outcomes(sources: seq<Source>, probe: string -> (bool, string)): (r: seq<SourceResult>)
    ensures |r| == |sources|
    ensures forall i :: 0 <= i < |r| ==> r[i] == SourceOutcome(sources[i], probe)
  {
    if sources == [] then []
    else Outcomes(sources[..|sources| - 1], probe) + [SourceOutcome(sources[|sources| - 1], probe)]
  }

  predicate IsValid(r: SourceResult) { r.verified }
  predicate IsSkipped(r: SourceResult) { !r.verified && r.status == ManualCheck }
  predicate IsBroken(r: SourceResult) { !r.verified && r.status != ManualCheck }

  /** Every result lands in exactly one bucket, so the three counts add up to the total. */
  lemma {:induction false} BucketsPartition(rs: seq<SourceResult>)
    ensures |Seqs.Filter(rs, IsValid)| + |Seqs.Filter(rs, IsSkipped)| + |Seqs.Filter(rs, IsBroken)| == |rs|
  {
    if rs != [] {
      BucketsPartition(rs[..|rs| - 1]);
    }
  }

  /** The three buckets of a citation's result, by its identifiers. */
  lemma BucketMeaning(s: Source, probe: string -> (bool, string))
    ensures IsSkipped(SourceOutcome(s, probe)) <==> s.urls == {} && !HasIsbn(s.isbn)
    ensures IsValid(SourceOutcome(s, probe)) <==> SourceOutcome(s, probe).status == Verified
    ensures IsBroken(SourceOutcome(s, probe)) <==> SourceOutcome(s, probe).status == Broken
  {
    SourceOutcomeRules(s, probe);
  }

  // ------------------------------------------------------- the repository scan

  /** `re.match(r'^\d{2}_', name)`. */
  predicate IsChapterName(name: string) { |name| >= 3 && IsDigit(name[0]) && IsDigit(name[1]) && name[2] == '_' }

  /** `glob("*.md")`. */
  predicate IsMarkdownName(name: string) { EndsWith(name, ".md") }

  /** The chapter files of a directory listing, in sorted order. */
  function ChapterFiles(names: seq<string>): (r: seq<string>)
    ensures forall f :: f in r <==> f in names && IsMarkdownName(f) && IsChapterName(f)
    ensures Lex.SortedStrings(r)
  {
    var sorted := Lex.SortStrings(Seqs.Filter(names, IsMarkdownName));
    forall f ensures f in sorted <==> f in Seqs.Filter(names, IsMarkdownName) {
      assert f in sorted <==> f in multiset(sorted);
    }
    var r := Seqs.Filter(sorted, IsChapterName);
    Lex.FilterKeepsSorted(sorted, IsChapterName);
    r
  }

  /** The citations of the files, file by file; `read` gives a file's content, or None when it cannot be read. */
  function SourcesOfFiles(files: seq<string>, read: string -> Option<string>): seq<Source>
  {
    if files == [] then []
    else
      var n := |files| - 1;
      SourcesOfFiles(files[..n], read) + FileSources(files[n], read(files[n]))
  }

  lemma SourcesOfFilesSnoc(files: seq<string>, i: nat, read: string -> Option<string>)
    requires i < |files|
    ensures SourcesOfFiles(files[..i + 1], read) == SourcesOfFiles(files[..i], read) + FileSources(files[i], read(files[i]))
  {
    assert files[..i + 1][..i] == files[..i];
  }

  /** Every citation of a file carries that file's name. */
  lemma FileSourcesFile(file: string, content: Option<string>, e: Source)
    requires e in FileSources(file, content)
    ensures e.file == file
  {
    var ks := Kinds(Split(content.value, '\n'));
    EntriesMembers(file, ks, e);
  }

  lemma {:induction false} SourcesOfFilesFrom(files: seq<string>, read: string -> Option<string>, e: Source)
    requires e in SourcesOfFiles(files, read)
    ensures e.file in files
  {
    var n := |files| - 1;
    if e in SourcesOfFiles(files[..n], read) {
      SourcesOfFilesFrom(files[..n], read, e);
      assert files[..n] <= files;
    } else {
      FileSourcesFile(files[n], read(files[n]), e);
    }
  }

  /** Every scanned citation comes from a chapter file of the listing. */
  lemma ScannedFromChapters(names: seq<string>, read: string -> Option<string>, e: Source)
    requires e in SourcesOfFiles(ChapterFiles(names), read)
    ensures e.file in names && IsChapterName(e.file) && IsMarkdownName(e.file)
  {
    SourcesOfFilesFrom(ChapterFiles(names), read, e);
  }

  /**
   * `SourceVerifier`: the URL cache and the three result buckets. `probe`
   * stands for the network; with it fixed, every cached entry is what a fresh
   * check would give, which is the invariant `Valid`.
   */
  class SourceVerifier {
    const probe: string -> (bool, string)
    var cache: map<string, UrlCheck>
    var allSources: seq<Source>
    var valid: seq<SourceResult>
    var broken: seq<SourceResult>
    var skipped: seq<SourceResult>

    ghost predicate Valid()
      reads this
    {
      forall u {:trigger cache[u]} :: u in cache ==> cache[u] == CheckUrl(u, probe)
    }

    constructor(probe: string -> (bool, string))
      ensures this.probe == probe && Valid()
      ensures cache == map[] && allSources == [] && valid == [] && broken == [] && skipped == []
    {
      this.probe := probe;
      cache := map[];
      allSources := [];
      valid := [];
      broken := [];
      skipped := [];
    }

    /** `verify_url`: a cached result is returned as it is; any other result is computed and cached. */
    method VerifyUrl(url: string) returns (r: UrlCheck)
      requires Valid()
      modifies this`cache
      ensures Valid()
      ensures url in old(cache) ==> r == old(cache)[url]
      ensures r == CheckUrl(url, probe)
      ensures cache == old(cache)[url := r]
    {
      if url in cache {
        r := cache[url];
        return;
      }
      if Contains(url, "localhost") || Contains(url, "127.0.0.1") {
        r := UrlCheck(true, SkippedLocalhost);
      } else if Contains(url, "${") || Contains(url, "{{") {
        r := UrlCheck(true, SkippedTemplate);
      } else {
        var answer := probe(url);
        r := UrlCheck(answer.0, Probed(answer.1));
      }
      cache := cache[url := r];
    }

    /** The URL loop of `verify_source`: every URL is checked in turn (in no fixed order); is any of them valid? */
    method CheckUrls(urls: set<string>) returns (anyValid: bool)
      requires Valid()
      modifies this`cache
      ensures Valid()
      ensures anyValid == AnyUrlValid(urls, probe)
      ensures cache.Keys == old(cache).Keys + urls
    {
      anyValid := false;
      var remaining := urls;
      while remaining != {}
        invariant remaining <= urls
        invariant Valid()
        invariant anyValid == AnyUrlValid(urls - remaining, probe)
        invariant cache.Keys == old(cache).Keys + (urls - remaining)
        decreases |remaining|
      {
        var url :| url in remaining;
        ghost var seen := urls - remaining;
        ghost var before := cache;
        var check := VerifyUrl(url);
        KeysUpdate(before, url, check, old(cache).Keys, seen);
        AnyUrlValidAdd(seen, url, probe);
        anyValid := anyValid || check.valid;
        remaining := remaining - {url};
        assert urls - remaining == seen + {url};
      }
      assert urls - remaining == urls;
    }

    /** `verify_source`: the URLs, then the ISBN; a citation with neither is left for a manual check. */
    method VerifySource(s: Source) returns (r: SourceResult)
      requires Valid()
      modifies this`cache
      ensures Valid()
      ensures r == SourceOutcome(s, probe)
      ensures cache.Keys == old(cache).Keys + s.urls
    {
      var verified := CheckUrls(s.urls);
      if HasIsbn(s.isbn) {
        var verdict := VerifyIsbn(s.isbn.value);
        if IsbnValid(verdict) { verified := true; }
      }
      if s.urls == {} && !HasIsbn(s.isbn) {
        r := SourceResult(s, false, ManualCheck);
      } else {
        r := SourceResult(s, verified, if verified then Verified else Broken);
      }
    }

    /** The citation-gathering loop of `scan_repository`. */
    method CollectSources(files: seq<string>, read: string -> Option<string>)
      modifies this`allSources
      ensures allSources == old(allSources) + SourcesOfFiles(files, read)
    {
      var i := 0;
      while i < |files|
        invariant 0 <= i <= |files|
        invariant allSources == old(allSources) + SourcesOfFiles(files[..i], read)
      {
        var found := ExtractSourcesFromFile(files[i], read(files[i]));
        SourcesOfFilesSnoc(files, i, read);
        Seqs.AppendAssoc(old(allSources), SourcesOfFiles(files[..i], read), found);
        allSources := allSources + found;
        i := i + 1;
      }
      assert files[..i] == files;
    }

    /** The verification loop of `scan_repository`: every citation gathered so far goes to one bucket. */
    method SortIntoBuckets()
      requires Valid()
      modifies this`cache, this`valid, this`skipped, this`broken
      ensures Valid()
      ensures valid == old(valid) + Seqs.Filter(Outcomes(allSources, probe), IsValid)
      ensures skipped == old(skipped) + Seqs.Filter(Outcomes(allSources, probe), IsSkipped)
      ensures broken == old(broken) + Seqs.Filter(Outcomes(allSources, probe), IsBroken)
    {
      var i := 0;
      while i < |allSources|
        invariant 0 <= i <= |allSources|
        invariant Valid()
        invariant valid == old(valid) + Seqs.Filter(Outcomes(allSources[..i], probe), IsValid)
        invariant skipped == old(skipped) + Seqs.Filter(Outcomes(allSources[..i], probe), IsSkipped)
        invariant broken == old(broken) + Seqs.Filter(Outcomes(allSources[..i], probe), IsBroken)
      {
        var r := VerifySource(allSources[i]);
        OutcomesSnoc(allSources, i, probe);
        ghost var before := Outcomes(allSources[..i], probe);
        Seqs.FilterSnoc(before, r, IsValid);
        Seqs.FilterSnoc(before, r, IsSkipped);
        Seqs.FilterSnoc(before, r, IsBroken);
        Place(r);
        Seqs.AppendAssoc(old(valid), Seqs.Filter(before, IsValid), if IsValid(r) then [r] else []);
        Seqs.AppendAssoc(old(skipped), Seqs.Filter(before, IsSkipped), if IsSkipped(r) then [r] else []);
        Seqs.AppendAssoc(old(broken), Seqs.Filter(before, IsBroken), if IsBroken(r) then [r] else []);
        i := i + 1;
      }
      assert allSources[..i] == allSources;
    }

    /** One result goes to the bucket it belongs to. */
    method Place(r: SourceResult)
      modifies this`valid, this`skipped, this`broken
      ensures valid == old(valid) + (if IsValid(r) then [r] else [])
      ensures skipped == old(skipped) + (if IsSkipped(r) then [r] else [])
      ensures broken == old(broken) + (if IsBroken(r) then [r] else [])
    {
      if r.verified {
        valid := valid + [r];
      } else if r.status == ManualCheck {
        skipped := skipped + [r];
      } else {
        broken := broken + [r];
      }
    }

    /**
     * `scan_repository`: the sorted `NN_*.md` files of the listing are read
     * through `read`, their citations gathered, and then every gathered
     * citation (earlier scans' included) is verified into a bucket.
     */
    method ScanRepository(names: seq<string>, read: string -> Option<string>)
      requires Valid()
      modifies this
      ensures Valid()
      ensures allSources == old(allSources) + SourcesOfFiles(ChapterFiles(names), read)
      ensures valid == old(valid) + Seqs.Filter(Outcomes(allSources, probe), IsValid)
      ensures skipped == old(skipped) + Seqs.Filter(Outcomes(allSources, probe), IsSkipped)
      ensures broken == old(broken) + Seqs.Filter(Outcomes(allSources, probe), IsBroken)
      ensures |valid| - |old(valid)| + |skipped| - |old(skipped)| + |broken| - |old(broken)| == |allSources|
    {
      var files := ChapterFiles(names);
      CollectSources(files, read);
      SortIntoBuckets();
      BucketsPartition(Outcomes(allSources, probe));
    }
  }

  /** A map that held the keys `a + b` holds `a + (b + {k})` once `k` is set. */
  lemma KeysUpdate<K, V>(m: map<K, V>, k: K, v: V, a: set<K>, b: set<K>)
    requires m.Keys == a + b
    ensures m[k := v].Keys == a + (b + {k})
  {
  }

  /** One more citation adds its outcome at the end. */
  lemma OutcomesSnoc(sources: seq<Source>, i: nat, probe: string -> (bool, string))
    requires i < |sources|
    ensures Outcomes(sources[..i + 1], probe) == Outcomes(sources[..i], probe) + [SourceOutcome(sources[i], probe)]
  {
    assert sources[..i + 1][..i] == sources[..i];
  }
}
