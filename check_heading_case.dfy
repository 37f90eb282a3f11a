/**
 * The heading case check over whole files: fenced blocks and inline code
 * spans are deleted from the text first, the rest is split into lines, and
 * a heading of one to six hash marks whose text (once a trailing `{...}`
 * attribute block is dropped) starts with a lowercase letter is a violation.
 */
module HeadingCase {
  import opened Wrappers
  import opened Str
  import Seqs
  import Paths

  const Fence := "```"

  // ------------------------------------------------------ removing code

  /**
   * `re.sub(r'```.*?```', '', content, flags=re.DOTALL)`: from the first
   * fence, up to and including the nearest fence that starts at least three
   * characters later, is deleted, and the scan goes on after it. A fence
   * that is never closed stays.
   */
  function RemoveFenced(s: string): (r: string)
    ensures |r| <= |s|
    decreases |s|
  {
    var i := FindFrom(s, Fence, 0);
    if i < 0 then s
    else
      var j := FindFrom(s, Fence, i + 3);
      if j < 0 then s else s[..i] + RemoveFenced(s[j + 3..])
  }

  /** Any two fences left in `r` overlap: no complete fenced block remains. */
  predicate NoClosedFence(r: string)
  {
    forall p, q :: 0 <= p <= q < |r| && OccursAt(r, Fence, p) && OccursAt(r, Fence, q) ==> q < p + 3
  }

  /** A fence in `a + b`, where `a` holds no fence and does not end in a backtick, lies in `b`. */
  lemma FenceInTail(a: string, b: string, p: nat)
    requires forall k :: !OccursAt(a, Fence, k)
    requires a == [] || a[|a| - 1] != '`'
    requires OccursAt(a + b, Fence, p)
    ensures p >= |a| && OccursAt(b, Fence, p - |a|)
  {
    if p + 3 <= |a| {
      FenceInHead(a, b, p);
      assert false;
    } else if p < |a| {
      FenceAcross(a, b, p);
      assert false;
    }
    assert (a + b)[p..p + 3] == b[p - |a|..p - |a| + 3];
  }

  lemma FenceInHead(a: string, b: string, p: nat)
    requires p + 3 <= |a| && OccursAt(a + b, Fence, p)
    ensures OccursAt(a, Fence, p)
  {
    assert (a + b)[p..p + 3] == a[p..p + 3];
  }

  lemma FenceAcross(a: string, b: string, p: nat)
    requires p < |a| < p + 3 && OccursAt(a + b, Fence, p)
    ensures a[|a| - 1] == '`'
  {
    assert (a + b)[|a| - 1] == (a + b)[p..p + 3][|a| - 1 - p];
  }

  /** What precedes the first fence holds no fence and does not end in a backtick. */
  lemma BeforeFirstFence(s: string, i: nat)
    requires i == FindFrom(s, Fence, 0)
    ensures forall k :: !OccursAt(s[..i], Fence, k)
    ensures i == 0 || s[i - 1] != '`'
  {
    forall k: nat | OccursAt(s[..i], Fence, k)
      ensures OccursAt(s, Fence, k)
    {
      assert s[..i][k..k + 3] == s[k..k + 3];
    }
    if i > 0 {
      FenceOneEarlier(s, i);
    }
  }

  /** A backtick right before a fence starts a fence itself. */
  lemma FenceOneEarlier(s: string, i: nat)
    requires i > 0 && OccursAt(s, Fence, i)
    ensures s[i - 1] == '`' ==> OccursAt(s, Fence, i - 1)
  {
    assert s[i] == s[i..i + 3][0] && s[i + 1] == s[i..i + 3][1];
    assert s[i - 1..i + 2] == [s[i - 1], s[i], s[i + 1]];
  }

  /** Deleting the fenced blocks leaves no fenced block behind. */
  lemma {:induction false} RemoveFencedComplete(s: string)
    ensures NoClosedFence(RemoveFenced(s))
    decreases |s|
  {
    var i := FindFrom(s, Fence, 0);
    if i >= 0 {
      var j := FindFrom(s, Fence, i + 3);
      if j >= 0 {
        RemoveFencedAt(s, i, j);
        RemoveFencedComplete(s[j + 3..]);
        BeforeFirstFence(s, i);
        JoinedWithoutFence(s[..i], RemoveFenced(s[j + 3..]));
      }
    }
  }

  lemma RemoveFencedAt(s: string, i: nat, j: nat)
    requires i == FindFrom(s, Fence, 0) && j == FindFrom(s, Fence, i + 3)
    ensures RemoveFenced(s) == s[..i] + RemoveFenced(s[j + 3..])
  {
  }

  /** Text without fences in front of text without a complete block has no complete block. */
  lemma JoinedWithoutFence(a: string, rest: string)
    requires forall k :: !OccursAt(a, Fence, k)
    requires a == [] || a[|a| - 1] != '`'
    requires NoClosedFence(rest)
    ensures NoClosedFence(a + rest)
  {
    var r := a + rest;
    forall p, q | 0 <= p <= q < |r| && OccursAt(r, Fence, p) && OccursAt(r, Fence, q)
      ensures q < p + 3
    {
      FenceInTail(a, rest, p);
      FenceInTail(a, rest, q);
    }
  }

  /** Text without any fence is left as it is. */
  lemma NoFenceKept(s: string)
    requires FindFrom(s, Fence, 0) < 0
    ensures RemoveFenced(s) == s
  {
  }

  /**
   * `re.sub(r'`[^`]+`', '', text)`: a backtick, at least one other
   * character and the next backtick are deleted; the scan goes on after the
   * deleted span, or one character further when no span starts here.
   */
  function RemoveInline(s: string): (r: string)
    ensures |r| <= |s|
    decreases |s|
  {
    if s == [] then []
    else if s[0] != '`' then [s[0]] + RemoveInline(s[1..])
    else if '`' !in s[1..] then s
    else
      var q := FirstIndexOf(s[1..], '`');
      if q == 0 then "`" + RemoveInline(s[1..]) else RemoveInline(s[q + 2..])
  }

  /** Backtick-free text in front is kept as it is, and the rest is processed on its own. */
  lemma {:induction false} PlainPrefix(a: string, rest: string)
    requires '`' !in a
    ensures RemoveInline(a + rest) == a + RemoveInline(rest)
    decreases |a|
  {
    if a != [] {
      var s := a + rest;
      assert s[0] == a[0] && s[1..] == a[1..] + rest;
      PlainPrefix(a[1..], rest);
      assert a == [a[0]] + a[1..];
    } else {
      assert a + rest == rest;
    }
  }

  /** Text without backticks is left as it is. */
  lemma NoBacktickKept(s: string)
    requires '`' !in s
    ensures RemoveInline(s) == s
  {
    PlainPrefix(s, []);
    assert s + [] == s;
  }

  /** A code span is deleted along with its backticks. */
  lemma SpanRemoved(code: string, b: string)
    requires '`' !in code && code != []
    ensures RemoveInline("`" + code + "`" + b) == RemoveInline(b)
  {
    var s := "`" + code + "`" + b;
    var tail := code + "`" + b;
    assert s[1..] == tail;
    FirstIndexAfter(code, '`', b);
    assert s[|code| + 2..] == b;
  }

  /** A code span after backtick-free text is deleted along with its backticks. */
  lemma InlineSpanRemoved(a: string, code: string, b: string)
    requires '`' !in a && '`' !in code && code != []
    ensures RemoveInline(a + ("`" + code + "`" + b)) == a + RemoveInline(b)
  {
    PlainPrefix(a, "`" + code + "`" + b);
    SpanRemoved(code, b);
  }

  /**
   * The lines that are scanned, numbered from 1 by their position. `content` is
   * the file as stored; the text-mode read turns `\r\n` and `\r` into `\n`.
   */
  function ScannedLines(content: string): (r: seq<string>)
    ensures forall k :: 0 <= k < |r| ==> '\n' !in r[k]
  {
    Split(RemoveInline(RemoveFenced(NormalizeNewlines(content))), '\n')
  }

  // ------------------------------------------------------ one heading

  /**
   * `re.match(r'^(#{1,6})\s+(.+)', line)` on a line without newlines: the
   * hash marks (group 1) and group 2 stripped. When only whitespace follows
   * the hash marks the text is blank.
   */
  function Heading(line: string): (r: Option<(string, string)>)
    ensures r.Some? ==> 1 <= |r.value.0| <= 6 && StartsWith(line, r.value.0)
    ensures r.Some? ==> forall k :: 0 <= k < |r.value.0| ==> r.value.0[k] == '#'
  {
    var hashes := Span(line, c => c == '#');
    var rest := line[hashes..];
    var gap := Span(rest, IsSpace);
    if hashes == 0 || hashes > 6 || gap == 0 then None
    else if gap < |rest| then
      var text := rest[gap..];
      Some((line[..hashes], Strip(if '\n' in text then text[..FirstIndexOf(text, '\n')] else text)))
    else if exists k :: 1 <= k < |rest| && rest[k] != '\n' then
      // the whitespace run gives back a character to `.+`, which strips to nothing
      Some((line[..hashes], ""))
    else None
  }

  /**
   * `re.sub(r'\s*\{[^}]*\}$', '', text)`: a final `}` closes the block that
   * opens at the first `{` after the last earlier `}`; the block and the
   * whitespace before it are dropped. Without such a block nothing changes.
   */
  function WithoutAttributes(text: string): (r: string)
    ensures StartsWith(text, r)
  {
    if text == [] || text[|text| - 1] != '}' then text
    else
      var body := text[..|text| - 1];
      var last := Paths.LastIndexOf(body, '}');
      var after := body[last + 1..];
      if '{' !in after then text
      else
        var p := last + 1 + FirstIndexOf(after, '{');
        RStrip(text[..p])
  }

  /** A trailing ` {attributes}` block after the words of a heading is dropped. */
  lemma AttributesDropped(words: string, attributes: string)
    requires words != [] && !IsSpace(words[|words| - 1])
    requires '{' !in words && '}' !in words && '}' !in attributes
    ensures WithoutAttributes(words + " " + "{" + attributes + "}") == words
  {
    var head := words + " ";
    var body := head + "{" + attributes;
    var text := body + "}";
    assert text[..|text| - 1] == body;
    assert '}' !in body;
    assert body[0..] == body;
    FirstIndexAfter(head, '{', attributes);
    assert text[..|head|] == head;
    assert head[..|words|] == words;
    DropWhileEndStops(words, IsSpace);
  }

  /** The violation a line gives: (level, heading text) when the cleaned text starts with a lowercase letter. */
  function Violation(line: string): Option<(string, string)>
  {
    match Heading(line)
    case None => None
    case Some((level, text)) =>
      var clean := WithoutAttributes(text);
      if clean != [] && IsLower(clean[0]) then Some((level, text)) else None
  }

  /** A line is a violation exactly when it is a heading whose text, without its attribute block, starts with a lowercase letter. */
  lemma ViolationIff(line: string)
    ensures Violation(line).Some? <==>
      Heading(line).Some? && WithoutAttributes(Heading(line).value.1) != [] && IsLower(Heading(line).value.1[0])
    ensures Violation(line).Some? ==> Violation(line) == Heading(line)
  {
  }

  /** A heading of seven or more hash marks is never a violation. */
  lemma DeepHeadingIgnored(line: string)
    requires |line| >= 7 && forall i :: 0 <= i < 7 ==> line[i] == '#'
    ensures Violation(line).None?
  {
    SpanCovers(line, 7, c => c == '#');
  }

  // ------------------------------------------------------ whole files

  /** The violations of `lines` as (1-based number, level, heading text), in order. */
  function Violations(lines: seq<string>): seq<(nat, string, string)>
    decreases |lines|
  {
    if lines == [] then []
    else
      var before := lines[..|lines| - 1];
      Violations(before) + ViolationAt(|lines|, lines[|lines| - 1])
  }

  function ViolationAt(n: nat, line: string): seq<(nat, string, string)>
  {
    match Violation(line)
    case None => []
    case Some((level, text)) => [(n, level, text)]
  }

  lemma ViolationsSnoc(before: seq<string>, line: string)
    ensures Violations(before + [line]) == Violations(before) + ViolationAt(|before| + 1, line)
  {
    assert (before + [line])[..|before|] == before;
  }

  /** A violation names line `n` exactly when that line's heading is a violation. */
  lemma {:induction false} ViolationsIff(lines: seq<string>, n: nat, level: string, text: string)
    ensures (n, level, text) in Violations(lines) <==>
      1 <= n <= |lines| && Violation(lines[n - 1]) == Some((level, text))
    decreases |lines|
  {
    if lines != [] {
      var before := lines[..|lines| - 1];
      ViolationsIff(before, n, level, text);
      Seqs.InitLast(lines);
      ViolationsSnoc(before, lines[|lines| - 1]);
      if 1 <= n <= |before| {
        assert lines[n - 1] == before[n - 1];
      }
    }
  }

  /** One pass of the line loop of `check_heading_case`. */
  method CheckLine(n: nat, line: string, violations: seq<(nat, string, string)>)
    returns (violations': seq<(nat, string, string)>)
    ensures violations' == violations + ViolationAt(n, line)
  {
    violations' := violations;
    var heading := Heading(line);
    if heading.Some? {
      var (level, text) := heading.value;
      var clean := WithoutAttributes(text);
      if clean != [] && IsLower(clean[0]) {
        violations' := violations + [(n, level, text)];
      }
    }
  }

  /** `check_heading_case`: the violations of the file's lines once code is removed. */
  method CheckHeadingCase(content: string) returns (violations: seq<(nat, string, string)>)
    ensures violations == Violations(ScannedLines(content))
  {
    var lines := ScannedLines(content);
    violations := [];
    for i := 0 to |lines|
      invariant violations == Violations(lines[..i])
    {
      Seqs.PrefixSnoc(lines, i);
      ViolationsSnoc(lines[..i], lines[i]);
      violations := CheckLine(i + 1, lines[i], violations);
    }
    Seqs.PrefixAll(lines);
  }

  /** The violations `check_heading_case` reports for one file's content. */
  function FileViolations(content: string): seq<(nat, string, string)>
  {
    Violations(ScannedLines(content))
  }

  /** Some file has a violation. */
  predicate AnyViolations(files: seq<string>)
  {
    exists k :: 0 <= k < |files| && FileViolations(files[k]) != []
  }

  /**
   * The loop of `main`, with `check` standing for `check_heading_case`
   * (whose line loop is `CheckHeadingCase`): the violations of every file
   * are added up, and the total is zero exactly when no file has any.
   */
  method CountViolations<T>(files: seq<string>, check: string -> seq<T>) returns (totalViolations: nat)
    ensures (totalViolations == 0) == (forall k :: 0 <= k < |files| ==> check(files[k]) == [])
  {
    totalViolations := 0;
    for i := 0 to |files|
      invariant (totalViolations == 0) == (forall k :: 0 <= k < i ==> check(files[k]) == [])
    {
      var violations := check(files[i]);
      totalViolations := totalViolations + |violations|;
    }
  }

  /**
   * `main`: 1 when the docs directory is missing or holds no markdown file,
   * otherwise 0 exactly when no file has a violation.
   */
  method Run(docsExists: bool, files: seq<string>) returns (code: int)
    ensures code == (if !docsExists || files == [] || AnyViolations(files) then 1 else 0)
  {
    if !docsExists || files == [] {
      return 1;
    }
    var totalViolations := CountViolations(files, FileViolations);
    code := if totalViolations == 0 then 0 else 1;
  }
}
