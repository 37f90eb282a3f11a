/**
 * The Architecture-as-Code ratio fixer: it counts mentions of "Architecture
 * as Code", "Infrastructure as Code" and "IaC" in a chapter, and when the
 * chapter falls short of twenty Architecture-as-Code mentions per
 * Infrastructure-as-Code mention it rewrites the Infrastructure-as-Code
 * mentions that are not in code or next to a named tool, right to left,
 * keeping their capitalisation.
 */
module AacIacRatio {
  import opened Wrappers
  import opened Str
  import Seqs

  // --------------------------------------------------------------- matching

  /** A search term: its text (lower-case when the search ignores case) and whether it ignores case. */
  datatype Term = Term(text: string, ignoreCase: bool)

  /** `\bArchitecture as Code\b` with `re.IGNORECASE`. */
  const AacTerm := Term("architecture as code", true)

  /** `\bInfrastructure as Code\b` with `re.IGNORECASE`. */
  const InfraTerm := Term("infrastructure as code", true)

  /** `\bIaC\b`, case-sensitive. */
  const IacTerm := Term("IaC", false)

  predicate CharMatches(c: char, d: char, ignoreCase: bool)
  {
    if ignoreCase then LowerChar(c) == d else c == d
  }

  /** The term matches at `i`, between word boundaries. */
  predicate TermAt(s: string, t: Term, i: nat)
  {
    i + |t.text| <= |s|
    && (forall k :: 0 <= k < |t.text| ==> CharMatches(s[i + k], t.text[k], t.ignoreCase))
    && (i == 0 || !IsWordChar(s[i - 1]))
    && (i + |t.text| == |s| || !IsWordChar(s[i + |t.text|]))
  }

  /** `finditer` from `i`: the start of every match, the search resuming at the end of each. */
  function Positions(s: string, t: Term, i: nat): seq<nat>
    requires |t.text| > 0
    decreases |s| - i
  {
    if i + |t.text| > |s| then []
    else if TermAt(s, t, i) then [i] + Positions(s, t, i + |t.text|)
    else Positions(s, t, i + 1)
  }

  /** `count_mentions`. */
  function CountMentions(s: string, t: Term): nat
    requires |t.text| > 0
  {
    |Positions(s, t, 0)|
  }

  /** Matches whose starts are at least `len` apart, in increasing order. */
  predicate Spaced(ps: seq<nat>, len: nat)
  {
    forall a, b :: 0 <= a < b < |ps| ==> ps[a] + len <= ps[b]
  }

  /**
   * Every position the scan reports starts a match at or after `i`, and the
   * positions increase by at least the term's length, so no two overlap.
   */
  lemma {:induction false} PositionsSound(s: string, t: Term, i: nat)
    requires |t.text| > 0
    ensures forall p :: p in Positions(s, t, i) ==> i <= p && TermAt(s, t, p)
    ensures Spaced(Positions(s, t, i), |t.text|)
    decreases |s| - i
  {
    if i + |t.text| <= |s| {
      var len := |t.text|;
      if TermAt(s, t, i) {
        PositionsSound(s, t, i + len);
        var r := Positions(s, t, i);
        var rest := Positions(s, t, i + len);
        forall a, b | 0 <= a < b < |r|
          ensures r[a] + len <= r[b]
        {
          assert r[b] == rest[b - 1] && rest[b - 1] in rest;
          if a > 0 {
            assert r[a] == rest[a - 1];
          }
        }
      } else {
        PositionsSound(s, t, i + 1);
      }
    }
  }

  /** A match at or after `i` means the scan from `i` reports something. */
  lemma {:induction false} PositionsFind(s: string, t: Term, i: nat, p: nat)
    requires |t.text| > 0 && i <= p && TermAt(s, t, p)
    ensures Positions(s, t, i) != []
    decreases p - i
  {
    if !TermAt(s, t, i) {
      PositionsFind(s, t, i + 1, p);
    }
  }

  /** A term is counted zero times exactly when it matches nowhere. */
  lemma CountZeroIff(s: string, t: Term)
    requires |t.text| > 0
    ensures CountMentions(s, t) == 0 <==> forall p: nat :: !TermAt(s, t, p)
  {
    PositionsSound(s, t, 0);
    if CountMentions(s, t) > 0 {
      assert Positions(s, t, 0)[0] in Positions(s, t, 0);
    }
    if exists p: nat :: TermAt(s, t, p) {
      var p: nat :| TermAt(s, t, p);
      PositionsFind(s, t, 0, p);
    }
  }

  // ------------------------------------------------------- preserved context

  /** `s.rfind(c)`. */
  function LastIndex(s: string, c: char): (i: int)
    ensures -1 <= i < |s|
    ensures i == -1 ==> c !in s
    ensures i >= 0 ==> s[i] == c && c !in s[i + 1..]
  {
    if s == [] then -1
    else if s[|s| - 1] == c then |s| - 1
    else
      var i := LastIndex(s[..|s| - 1], c);
      assert i >= 0 ==> s[i + 1..] == s[..|s| - 1][i + 1..] + [s[|s| - 1]];
      i
  }

  /** The last occurrence is no earlier than any occurrence. */
  lemma {:induction false} LastIndexAtLeast(s: string, c: char, k: nat)
    requires k < |s| && s[k] == c
    ensures LastIndex(s, c) >= k
  {
    if s[|s| - 1] != c {
      assert s[..|s| - 1][k] == c;
      LastIndexAtLeast(s[..|s| - 1], c, k);
    }
  }

  /**
   * `is_in_code_block`: an odd number of fences before the position, or a
   * backtick less than a hundred characters back with none after it.
   */
  function InCodeBlock(text: string, position: nat): bool
    requires position <= |text|
  {
    var before := text[..position];
    if CountSub(before, "```") % 2 == 1 then true
    else
      var last := LastIndex(before, '`');
      last >= 0 && '`' !in before[last + 1..] && |before[last + 1..]| < 100
  }

  /** Outside a fence, a position is in code exactly when a backtick occurs among the hundred characters before it. */
  lemma InCodeBlockIff(text: string, position: nat)
    requires position <= |text|
    ensures InCodeBlock(text, position) <==>
              CountSub(text[..position], "```") % 2 == 1 || TickWithin(text, position - 100, position)
  {
    var before := text[..position];
    RecentBacktick(before);
    TickWithinPrefix(text, position);
    InCodeBlockCases(text, position);
  }

  lemma InCodeBlockCases(text: string, position: nat)
    requires position <= |text|
    ensures var before := text[..position];
            var last := LastIndex(before, '`');
            InCodeBlock(text, position) == (CountSub(before, "```") % 2 == 1
              || (last >= 0 && '`' !in before[last + 1..] && |before[last + 1..]| < 100))
  {
  }

  /** A backtick at an index in `[from, to)`. */
  predicate TickWithin(s: string, from: int, to: int)
    requires to <= |s|
  {
    exists k :: from <= k < to && 0 <= k && s[k] == '`'
  }

  lemma TickWithinPrefix(text: string, position: nat)
    requires position <= |text|
    ensures TickWithin(text[..position], position - 100, position) <==> TickWithin(text, position - 100, position)
  {
    var before := text[..position];
    if TickWithin(text, position - 100, position) {
      var k :| position - 100 <= k < position && 0 <= k && text[k] == '`';
      assert before[k] == '`';
    }
    if TickWithin(before, position - 100, position) {
      var k :| position - 100 <= k < position && 0 <= k && before[k] == '`';
      assert text[k] == '`';
    }
  }

  /** The last backtick is under a hundred characters from the end exactly when some backtick is. */
  lemma RecentBacktick(before: string)
    ensures var last := LastIndex(before, '`');
            (last >= 0 && '`' !in before[last + 1..] && |before[last + 1..]| < 100)
            <==> TickWithin(before, |before| - 100, |before|)
  {
    var last := LastIndex(before, '`');
    if last >= 0 && |before[last + 1..]| < 100 {
      assert |before| - 100 <= last < |before| && before[last] == '`';
    }
    if TickWithin(before, |before| - 100, |before|) {
      var k :| |before| - 100 <= k < |before| && 0 <= k && before[k] == '`';
      LastIndexAtLeast(before, '`', k);
      assert last >= k;
    }
  }

  /** The tool names whose nearness keeps a mention. */
  const Tools := ["terraform", "cloudformation", "ansible", "puppet", "chef"]

  /** `text[start:end].lower()` around a position, a hundred characters each way. */
  function Window(text: string, position: nat): (w: string)
    requires position <= |text|
  {
    var start := if position >= 100 then position - 100 else 0;
    var end := if position + 100 <= |text| then position + 100 else |text|;
    Lower(text[start..end])
  }

  /** `should_preserve_iac`: in code, or a tool name in the window. */
  function Preserve(text: string, position: nat): bool
    requires position <= |text|
  {
    InCodeBlock(text, position) || ToolNear(text, position)
  }

  /** Some tool name occurs in the window. */
  predicate ToolNear(text: string, position: nat)
    requires position <= |text|
  {
    exists k :: 0 <= k < |Tools| && Contains(Window(text, position), Tools[k])
  }

  /** A piece of a lowered slice is the same piece of the lowered text. */
  lemma LowerSlice(s: string, i: nat, j: nat, a: nat, n: nat)
    requires i <= j <= |s| && a + n <= j - i
    ensures Lower(s[i..j])[a..a + n] == Lower(s)[i + a..i + a + n]
  {
    var l, m := Lower(s[i..j]), Lower(s);
    forall y | 0 <= y < j - i
      ensures l[y] == m[i..j][y]
    {
      assert s[i..j][y] == s[i + y];
    }
    assert l == m[i..j];
  }

  /** A tool name, in any case, within a hundred characters either side keeps the mention. */
  lemma ToolNearbyPreserves(text: string, position: nat, k: nat, q: nat)
    requires position <= |text| && k < |Tools|
    requires position - 100 <= q && q + |Tools[k]| <= position + 100
    requires OccursAt(Lower(text), Tools[k], q)
    ensures Preserve(text, position)
  {
    ToolNearby(text, position, k, q);
  }

  lemma ToolNearby(text: string, position: nat, k: nat, q: nat)
    requires position <= |text| && k < |Tools|
    requires position - 100 <= q && q + |Tools[k]| <= position + 100
    requires OccursAt(Lower(text), Tools[k], q)
    ensures ToolNear(text, position)
  {
    var start := if position >= 100 then position - 100 else 0;
    var end := if position + 100 <= |text| then position + 100 else |text|;
    var w := Window(text, position);
    assert w == Lower(text[start..end]);
    var tool := Tools[k];
    var a: nat := q - start;
    LowerSlice(text, start, end, a, |tool|);
    assert w[a..a + |tool|] == Lower(text)[q..q + |tool|] == tool;
    ContainsAt(w, tool, a);
  }

  // ----------------------------------------------------------- replacement

  predicate IsCased(c: char) { IsUpper(c) || IsLower(c) }

  /** `str.isupper()`: some cased character and no lower-case one. */
  predicate IsUpperStr(s: string)
  {
    (exists i :: 0 <= i < |s| && IsUpper(s[i])) && forall i :: 0 <= i < |s| ==> !IsLower(s[i])
  }

  /** `str.istitle()`: capitals only after uncased characters, small letters only after cased ones, and some cased character. */
  predicate IsTitle(s: string)
  {
    (exists i :: 0 <= i < |s| && IsCased(s[i]))
    && (forall i :: 0 <= i < |s| && IsUpper(s[i]) ==> i == 0 || !IsCased(s[i - 1]))
    && (forall i :: 0 <= i < |s| && IsLower(s[i]) ==> i > 0 && IsCased(s[i - 1]))
  }

  /** The replacement for a matched "Infrastructure as Code", in the match's case. */
  function CaseReplacement(original: string): string
  {
    if IsUpperStr(original) then "ARCHITECTURE AS CODE"
    else if IsTitle(original) || (original != [] && IsUpper(original[0])) then "Architecture as Code"
    else "architecture as code"
  }

  /** A title-cased string that starts with a letter starts with a capital, so `istitle()` adds nothing to the leading-capital test here. */
  lemma TitleStartsCapital(s: string)
    requires IsTitle(s) && s != [] && IsAlpha(s[0])
    ensures IsUpper(s[0])
  {
  }

  /**
   * The replacement always spells the phrase, and keeps the match's case: it
   * starts with a capital exactly when the match does and is all capitals
   * exactly when the match is.
   */
  lemma CasePreserved(original: string)
    requires original != [] && (original[0] == 'i' || original[0] == 'I')
    ensures Lower(CaseReplacement(original)) == AacTerm.text
    ensures IsUpper(CaseReplacement(original)[0]) <==> IsUpper(original[0])
    ensures IsUpperStr(CaseReplacement(original)) <==> IsUpperStr(original)
  {
    if IsUpperStr(original) {
      UpperForm();
      assert !IsLower(original[0]);
    } else if IsTitle(original) || IsUpper(original[0]) {
      TitleForm();
      if IsTitle(original) {
        TitleStartsCapital(original);
      }
    } else {
      LowerForm();
    }
  }

  lemma UpperForm()
    ensures var r := "ARCHITECTURE AS CODE"; IsUpperStr(r) && IsUpper(r[0]) && Lower(r) == AacTerm.text
  {
    var r := "ARCHITECTURE AS CODE";
    forall i | 0 <= i < |r|
      ensures !IsLower(r[i])
    {
      assert r[i] == ' ' || IsAsciiUpper(r[i]);
    }
    assert IsUpper(r[0]);
    assert Lower(r) == AacTerm.text;
  }

  lemma TitleForm()
    ensures var r := "Architecture as Code"; !IsUpperStr(r) && IsUpper(r[0]) && Lower(r) == AacTerm.text
  {
    var r := "Architecture as Code";
    assert IsLower(r[1]);
    assert Lower(r) == AacTerm.text;
  }

  lemma LowerForm()
    ensures var r := "architecture as code"; !IsUpperStr(r) && !IsUpper(r[0]) && Lower(r) == AacTerm.text
  {
    var r := "architecture as code";
    assert IsLower(r[1]);
    assert Lower(r) == AacTerm.text;
  }

  /** The two passes: the full phrase, then (aggressive only) the abbreviation. */
  datatype Pass = FullPhrase | Abbreviation

  function TermOf(pass: Pass): Term
  {
    match pass
    case FullPhrase => InfraTerm
    case Abbreviation => IacTerm
  }

  /** The text that replaces a mention: the phrase in the mention's case, or always "Architecture as Code" for `IaC`. */
  function ReplacementFor(pass: Pass, original: string): string
  {
    match pass
    case FullPhrase => CaseReplacement(original)
    case Abbreviation => "Architecture as Code"
  }

  /** One mention at `p`: kept when its context says so, otherwise replaced. */
  function Step(r: string, p: nat, pass: Pass): (out: (string, bool))
    requires p + |TermOf(pass).text| <= |r|
    ensures |out.0| >= p && out.0[..p] == r[..p]
  {
    var len := |TermOf(pass).text|;
    if Preserve(r, p) then (r, false)
    else
      var out := r[..p] + ReplacementFor(pass, r[p..p + len]) + r[p + len..];
      assert out[..p] == r[..p];
      (out, true)
  }

  /** Matches, all inside `r`, at least `len` apart. */
  predicate Fits(ps: seq<nat>, len: nat, r: string)
  {
    Spaced(ps, len) && forall j :: 0 <= j < |ps| ==> ps[j] + len <= |r|
  }

  /** After the last match is handled the others still fit what was kept before it. */
  lemma FitsInit(ps: seq<nat>, len: nat, r: string, r': string)
    requires ps != [] && Fits(ps, len, r)
    requires |r'| >= ps[|ps| - 1]
    ensures Fits(ps[..|ps| - 1], len, r')
  {
    var init := ps[..|ps| - 1];
    forall j | 0 <= j < |init|
      ensures init[j] + len <= |r'|
    {
      assert init[j] + len <= ps[|ps| - 1];
    }
  }

  /** `for match in reversed(matches)`, from the given text and count. */
  function Rewrite(r: string, n: nat, ps: seq<nat>, pass: Pass): (string, nat)
    requires Fits(ps, |TermOf(pass).text|, r)
    decreases |ps|
  {
    if ps == [] then (r, n)
    else
      var out := Step(r, ps[|ps| - 1], pass);
      FitsInit(ps, |TermOf(pass).text|, r, out.0);
      Rewrite(out.0, if out.1 then n + 1 else n, ps[..|ps| - 1], pass)
  }

  /** The matches of a pass in `r`, which fit it. */
  lemma MatchesFit(r: string, pass: Pass)
    ensures Fits(Positions(r, TermOf(pass), 0), |TermOf(pass).text|, r)
  {
    PositionsSound(r, TermOf(pass), 0);
    var ps := Positions(r, TermOf(pass), 0);
    forall j | 0 <= j < |ps|
      ensures ps[j] + |TermOf(pass).text| <= |r|
    {
      assert ps[j] in ps;
    }
  }

  /** One pass over the mentions its scan finds. */
  function RunPass(r: string, n: nat, pass: Pass): (string, nat)
  {
    MatchesFit(r, pass);
    Rewrite(r, n, Positions(r, TermOf(pass), 0), pass)
  }

  /** `replace_iac_with_aac`: the full-phrase pass, then the abbreviation pass when aggressive. */
  function Replaced(text: string, aggressive: bool): (string, nat)
  {
    var first := RunPass(text, 0, FullPhrase);
    if aggressive then RunPass(first.0, first.1, Abbreviation) else first
  }

  /** Each handled mention adds at most one to the count, and a pass that replaces nothing leaves the text as it was. */
  lemma {:induction false} RewriteCount(r: string, n: nat, ps: seq<nat>, pass: Pass)
    requires Fits(ps, |TermOf(pass).text|, r)
    ensures n <= Rewrite(r, n, ps, pass).1 <= n + |ps|
    ensures Rewrite(r, n, ps, pass).1 == n ==> Rewrite(r, n, ps, pass).0 == r
    decreases |ps|
  {
    if ps != [] {
      var out := Step(r, ps[|ps| - 1], pass);
      FitsInit(ps, |TermOf(pass).text|, r, out.0);
      RewriteCount(out.0, if out.1 then n + 1 else n, ps[..|ps| - 1], pass);
    }
  }

  /**
   * The count is at most the number of mentions found, and no replacement
   * means the text comes back unchanged.
   */
  lemma ReplacedCount(text: string, aggressive: bool)
    ensures var first := RunPass(text, 0, FullPhrase);
            Replaced(text, aggressive).1 <= CountMentions(text, InfraTerm)
                + (if aggressive then CountMentions(first.0, IacTerm) else 0)
    ensures Replaced(text, aggressive).1 == 0 ==> Replaced(text, aggressive).0 == text
  {
    MatchesFit(text, FullPhrase);
    RewriteCount(text, 0, Positions(text, InfraTerm, 0), FullPhrase);
    var first := RunPass(text, 0, FullPhrase);
    if aggressive {
      MatchesFit(first.0, Abbreviation);
      RewriteCount(first.0, first.1, Positions(first.0, IacTerm, 0), Abbreviation);
    }
  }

  /** A mention preserved at its turn stays; replacing one is the step the count records. */
  lemma StepIff(r: string, p: nat, pass: Pass)
    requires p + |TermOf(pass).text| <= |r|
    ensures Step(r, p, pass).1 <==> !Preserve(r, p)
    ensures !Step(r, p, pass).1 <==> Step(r, p, pass).0 == r
  {
    var len := |TermOf(pass).text|;
    if !Preserve(r, p) {
      var out := Step(r, p, pass).0;
      var rep := ReplacementFor(pass, r[p..p + len]);
      assert |rep| == 20;
      if pass == FullPhrase {
        assert |out| == |r| - 2;
      } else {
        assert |out| == |r| + 17;
      }
    }
  }

  lemma StepUnfold(r: string, p: nat, pass: Pass)
    requires p + |TermOf(pass).text| <= |r|
    ensures var len := |TermOf(pass).text|;
            Step(r, p, pass) == if Preserve(r, p) then (r, false)
                                else (r[..p] + ReplacementFor(pass, r[p..p + len]) + r[p + len..], true)
  {
  }

  /** Handling the `k`-th match from the front leaves the earlier ones to do, still fitting. */
  lemma RewriteStep(r: string, n: nat, ps: seq<nat>, k: nat, pass: Pass)
    requires 0 < k <= |ps| && Fits(ps[..k], |TermOf(pass).text|, r)
    ensures ps[k - 1] + |TermOf(pass).text| <= |r|
    ensures var out := Step(r, ps[k - 1], pass);
            Fits(ps[..k - 1], |TermOf(pass).text|, out.0)
            && Rewrite(r, n, ps[..k], pass) == Rewrite(out.0, if out.1 then n + 1 else n, ps[..k - 1], pass)
  {
    assert ps[..k][k - 1] == ps[k - 1];
    assert ps[..k][..k - 1] == ps[..k - 1];
    var out := Step(r, ps[k - 1], pass);
    FitsInit(ps[..k], |TermOf(pass).text|, r, out.0);
  }

  /** One pass as the source runs it: the matches of the text on entry, handled from the last to the first. */
  method ReplacePass(text: string, n0: nat, pass: Pass) returns (result: string, replacements: nat)
    ensures (result, replacements) == RunPass(text, n0, pass)
  {
    var len := |TermOf(pass).text|;
    var matches := Positions(text, TermOf(pass), 0);
    MatchesFit(text, pass);
    Seqs.PrefixAll(matches);
    ghost var goal := Rewrite(text, n0, matches, pass);
    result := text;
    replacements := n0;
    var k := |matches|;
    while k > 0
      invariant 0 <= k <= |matches|
      invariant Fits(matches[..k], len, result)
      invariant Rewrite(result, replacements, matches[..k], pass) == goal
    {
      var p := matches[k - 1];
      RewriteStep(result, replacements, matches, k, pass);
      StepUnfold(result, p, pass);
      ghost var out := Step(result, p, pass);
      ghost var count := replacements;
      if !Preserve(result, p) {
        result := result[..p] + ReplacementFor(pass, result[p..p + len]) + result[p + len..];
        replacements := replacements + 1;
      }
      assert result == out.0 && replacements == if out.1 then count + 1 else count;
      k := k - 1;
    }
  }

  /** `replace_iac_with_aac`. */
  method ReplaceIacWithAac(text: string, aggressive: bool) returns (result: string, replacements: nat)
    ensures (result, replacements) == Replaced(text, aggressive)
  {
    result, replacements := ReplacePass(text, 0, FullPhrase);
    if aggressive {
      result, replacements := ReplacePass(result, replacements, Abbreviation);
    }
  }

  // --------------------------------------------------------------- a file

  /** `analyze_file`'s counts. */
  datatype Analysis = Analysis(aac: nat, iacFull: nat, iacAbbrev: nat)
  {
    function TotalIac(): nat { iacFull + iacAbbrev }
  }

  function Analyze(content: string): Analysis
  {
    Analysis(CountMentions(content, AacTerm), CountMentions(content, InfraTerm), CountMentions(content, IacTerm))
  }

  /** `aac / total` as a pair of counts, or `inf` when there is no IaC mention. */
  datatype Ratio = Infinite | Quotient(num: nat, den: nat)

  function RatioOf(aac: nat, total: nat): (r: Ratio)
    ensures r.Quotient? ==> r.den > 0
  {
    if total > 0 then Quotient(aac, total) else Infinite
  }

  /** `ratio >= 20.0`, exact on the counts. */
  predicate MeetsTarget(r: Ratio)
  {
    r.Infinite? || r.num >= 20 * r.den
  }

  datatype Status = NoIac | AlreadyCompliant | Fixed | NoChanges

  /** `fix_file`'s record, with the text written back (`None` when the file is left alone). */
  datatype FixResult = FixResult(status: Status, replacements: nat, oldRatio: Ratio, newRatio: Ratio, written: Option<string>)

  function Max(a: int, b: int): int { if a >= b then a else b }

  /**
   * `fix_file` on a file's content.  No mention gives `no_iac`; twenty or
   * more mentions of the phrase per mention of the other gives
   * `already_compliant`; otherwise `fixed` exactly when something was
   * replaced.  A dry run writes nothing, a real run writes the replaced text
   * exactly when it fixed something, and the ratio is infinite exactly when
   * there is no mention.
   */
  function FixFile(content: string, aggressive: bool, dryRun: bool): (r: FixResult)
    ensures var a := Analyze(content);
            (r.status == NoIac <==> a.TotalIac() == 0)
            && (r.status == AlreadyCompliant <==> a.TotalIac() > 0 && a.aac >= 20 * a.TotalIac())
            && (r.status == Fixed <==> a.TotalIac() > 0 && a.aac < 20 * a.TotalIac() && Replaced(content, aggressive).1 > 0)
            && (r.written.Some? <==> r.status == Fixed && !dryRun)
            && (r.written.Some? ==> r.written.value == Replaced(content, aggressive).0)
            && (r.oldRatio.Infinite? <==> a.TotalIac() == 0)
            && (r.status != Fixed ==> r.replacements == 0 && r.newRatio == r.oldRatio)
  {
    var a := Analyze(content);
    var ratio := RatioOf(a.aac, a.TotalIac());
    if a.TotalIac() == 0 then FixResult(NoIac, 0, ratio, ratio, None)
    else if MeetsTarget(ratio) then FixResult(AlreadyCompliant, 0, ratio, ratio, None)
    else
      var (newContent, n) := Replaced(content, aggressive);
      var written := if n > 0 && !dryRun then Some(newContent) else None;
      var newRatio :=
        if n == 0 then ratio
        else if !dryRun then
          var b := Analyze(newContent);
          RatioOf(b.aac, b.TotalIac())
        else RatioOf(a.aac, Max(1, a.TotalIac() - n));
      FixResult(if n > 0 then Fixed else NoChanges, n, ratio, newRatio, written)
  }

  /** A dry run that replaced something estimates the new ratio by taking the replacements off the total, never below one. */
  lemma DryRunEstimate(content: string, aggressive: bool)
    requires FixFile(content, aggressive, true).status == Fixed
    ensures var a := Analyze(content);
            var n := Replaced(content, aggressive).1;
            FixFile(content, aggressive, true).newRatio == Quotient(a.aac, Max(1, a.TotalIac() - n))
  {
  }
}
