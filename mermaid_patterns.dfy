/**
 * The regular expressions the diagram complexity analyser counts with
 * `re.findall`, written out as matchers: `m(s, p)` is the end of the match
 * that starts at `p`, or -1 when none does. Every pattern here matches
 * deterministically (a shorter choice for any greedy repetition cannot
 * succeed where the longest failed), except the entity relationship's
 * `{1,2}` run, which is tried with two characters and then with one.
 */
module MermaidPatterns {
  import opened Str

  /** The end of the run of characters satisfying `p` that starts at `i`. */
  function Skip(s: string, i: nat, p: char -> bool): (r: nat)
    requires i <= |s|
    ensures i <= r <= |s|
    ensures forall k :: i <= k < r ==> p(s[k])
    ensures r < |s| ==> !p(s[r])
    decreases |s| - i
  {
    if i < |s| && p(s[i]) then Skip(s, i + 1, p) else i
  }

  /** `^` under `re.MULTILINE`: the start of the text or just after a newline. */
  predicate LineStart(s: string, p: nat)
  {
    p == 0 || (p <= |s| && s[p - 1] == '\n')
  }

  /** What a keyword line pattern requires after the keyword. */
  datatype Trailing = Nothing | Spaces | SpacesThenWord

  /** The first keyword of `kws` that occurs at `q`, as an alternation tries them. */
  function KeywordAt(s: string, q: nat, kws: seq<string>): (k: nat)
    ensures k <= |kws|
    ensures k < |kws| ==> OccursAt(s, kws[k], q)
    ensures forall j :: 0 <= j < k ==> !OccursAt(s, kws[j], q)
  {
    if kws == [] then 0
    else if OccursAt(s, kws[0], q) then 0
    else
      var k := KeywordAt(s, q, kws[1..]);
      assert forall j :: 1 <= j < |kws| ==> kws[j] == kws[1..][j - 1];
      1 + k
  }

  /** `^\s*(kw1|kw2|...)` followed by `trailing`. */
  function KeywordLineEnd(s: string, p: nat, kws: seq<string>, trailing: Trailing): (r: int)
    ensures r >= 0 ==> p < r <= |s| && LineStart(s, p)
  {
    if p > |s| || !LineStart(s, p) then -1
    else
      var q := Skip(s, p, IsSpace);
      var k := KeywordAt(s, q, kws);
      if k == |kws| || kws[k] == [] then -1
      else
        var e := q + |kws[k]|;
        match trailing
        case Nothing => e
        case Spaces => if e < |s| && IsSpace(s[e]) then Skip(s, e, IsSpace) else -1
        case SpacesThenWord =>
          if e < |s| && IsSpace(s[e]) then
            var w := Skip(s, e, IsSpace);
            if w < |s| && IsWordChar(s[w]) then Skip(s, w, IsWordChar) else -1
          else -1
  }

  function KeywordLine(kws: seq<string>, trailing: Trailing): (string, nat) -> int
  {
    (s: string, p: nat) => KeywordLineEnd(s, p, kws, trailing)
  }

  /** A keyword at the start of a line (after indentation), followed by whitespace, is a match. */
  lemma KeywordLineMatches(s: string, p: nat, kw: string, q: nat)
    requires LineStart(s, p) && p <= q < |s| && forall k :: p <= k < q ==> IsSpace(s[k])
    requires kw != [] && !IsSpace(kw[0]) && OccursAt(s, kw, q)
    requires q + |kw| < |s| && IsSpace(s[q + |kw|])
    ensures KeywordLineEnd(s, p, [kw], Spaces) > p
  {
    assert s[q] == kw[0];
    assert Skip(s, p, IsSpace) == q by { SkipTo(s, p, q, IsSpace); }
  }

  /** A run that stops at `q` is the run `Skip` measures. */
  lemma {:induction false} SkipTo(s: string, p: nat, q: nat, f: char -> bool)
    requires p <= q < |s| && !f(s[q]) && forall k :: p <= k < q ==> f(s[k])
    ensures Skip(s, p, f) == q
    decreases q - p
  {
    if p < q {
      SkipTo(s, p + 1, q, f);
    }
  }

  /** Content in which no keyword occurs has no keyword line. */
  lemma {:induction false} KeywordLineNeedsKeyword(s: string, kws: seq<string>, trailing: Trailing)
    requires forall k, i :: 0 <= k < |kws| && 0 <= i <= |s| ==> !OccursAt(s, kws[k], i)
    ensures CountMatches(s, KeywordLine(kws, trailing), 0) == 0
  {
    CountMatchesZeroIff(s, KeywordLine(kws, trailing), 0);
  }

  // ------------------------------------------------------------------ graph

  /** `[A-Z0-9_]`. */
  predicate IdChar(c: char) { IsAsciiUpper(c) || IsDigit(c) || c == '_' }

  /** `[\[\(\{<]`. */
  predicate NodeOpen(c: char) { c == '[' || c == '(' || c == '{' || c == '<' }

  /** `\b[A-Z][A-Z0-9_]*\s*[\[\(\{<]`: a capitalised identifier opening a node shape. */
  function NodeEnd(s: string, p: nat): (r: int)
    ensures r >= 0 ==> p < r <= |s| && IsAsciiUpper(s[p]) && NodeOpen(s[r - 1])
  {
    if p >= |s| || !IsAsciiUpper(s[p]) || (p > 0 && IsWordChar(s[p - 1])) then -1
    else
      var q := Skip(s, p + 1, IdChar);
      var r := Skip(s, q, IsSpace);
      if r < |s| && NodeOpen(s[r]) then r + 1 else -1
  }

  /** Content with no node-shape bracket has no node. */
  lemma NodesNeedBrackets(s: string)
    requires forall i :: 0 <= i < |s| ==> !NodeOpen(s[i])
    ensures CountMatches(s, NodeEnd, 0) == 0
  {
    CountMatchesZeroIff(s, NodeEnd, 0);
  }

  // --------------------------------------------------------------- sequence

  /** `-{1,2}>>{0,1}`: one or two dashes, then one or two arrow heads. */
  function ArrowEnd(s: string, p: nat): (r: int)
    ensures r >= 0 ==> p < r <= |s| && s[p] == '-'
  {
    if p >= |s| || s[p] != '-' then -1
    else
      var q := if p + 1 < |s| && s[p + 1] == '-' then p + 2 else p + 1;
      if q < |s| && s[q] == '>' then
        if q + 1 < |s| && s[q + 1] == '>' then q + 2 else q + 1
      else -1
  }

  // ------------------------------------------------------------------ class

  /** `[>|ox*]`. */
  predicate RelationHead(c: char) { c == '>' || c == '|' || c == 'o' || c == 'x' || c == '*' }

  /** `--[>|ox*]|\.\.>`. */
  function ClassRelationEnd(s: string, p: nat): (r: int)
    ensures r >= 0 ==> r == p + 3 <= |s| && (s[p] == '-' || s[p] == '.')
  {
    if p + 3 > |s| then -1
    else if s[p] == '-' && s[p + 1] == '-' && RelationHead(s[p + 2]) then p + 3
    else if s[p] == '.' && s[p + 1] == '.' && s[p + 2] == '>' then p + 3
    else -1
  }

  // --------------------------------------------------------------------- er

  /** `^\s*\w+\s*\{`: an entity block opens. */
  function EntityEnd(s: string, p: nat): (r: int)
    ensures r >= 0 ==> p < r <= |s| && LineStart(s, p) && s[r - 1] == '{'
  {
    if p > |s| || !LineStart(s, p) then -1
    else
      var q := Skip(s, p, IsSpace);
      if q < |s| && IsWordChar(s[q]) then
        var w := Skip(s, q, IsWordChar);
        var t := Skip(s, w, IsSpace);
        if t < |s| && s[t] == '{' then t + 1 else -1
      else -1
  }

  predicate Cardinality(c: char) { c == 'o' || c == 'O' || c == '|' }

  predicate EdgeChar(c: char) { c == '.' || c == '|' || c == '-' }

  /** `[|}][oO|][.|-]{1,2}[oO|][|{]`: the two-character edge is tried before the one-character one. */
  function ErRelationEnd(s: string, p: nat): (r: int)
    ensures r >= 0 ==> (r == p + 5 || r == p + 6) && r <= |s| && (s[p] == '|' || s[p] == '}')
  {
    if p + 5 > |s| || !(s[p] == '|' || s[p] == '}') || !Cardinality(s[p + 1]) || !EdgeChar(s[p + 2]) then -1
    else if p + 6 <= |s| && EdgeChar(s[p + 3]) && Cardinality(s[p + 4]) && (s[p + 5] == '|' || s[p + 5] == '{') then p + 6
    else if Cardinality(s[p + 3]) && (s[p + 4] == '|' || s[p + 4] == '{') then p + 5
    else -1
  }

  // -------------------------------------------------------------------- pie

  predicate NotQuote(c: char) { c != '"' }

  /** `^\s*"[^"]+"\s*:`: a quoted, non-empty label followed by a colon. */
  function SliceEnd(s: string, p: nat): (r: int)
    ensures r >= 0 ==> p < r <= |s| && LineStart(s, p) && s[r - 1] == ':'
  {
    if p > |s| || !LineStart(s, p) then -1
    else
      var q := Skip(s, p, IsSpace);
      if q < |s| && s[q] == '"' then
        var c := Skip(s, q + 1, NotQuote);
        if c > q + 1 && c < |s| then
          var t := Skip(s, c + 1, IsSpace);
          if t < |s| && s[t] == ':' then t + 1 else -1
        else -1
      else -1
  }

  // --------------------------------------------------------------- quadrant

  /** `\d+\.?\d*`: digits, optionally a point and more digits. */
  function NumberEnd(s: string, i: nat): (r: int)
    requires i <= |s|
    ensures r >= 0 ==> i < r <= |s|
  {
    if i < |s| && IsDigit(s[i]) then
      var j := Skip(s, i, IsDigit);
      if j < |s| && s[j] == '.' then Skip(s, j + 1, IsDigit) else j
    else -1
  }

  /** `:\s*\[\s*N\s*,\s*N\s*\]` with `N` a number: a point's coordinates. */
  function PointEnd(s: string, p: nat): (r: int)
    ensures r >= 0 ==> p < r <= |s| && s[p] == ':' && s[r - 1] == ']'
  {
    if p >= |s| || s[p] != ':' then -1
    else
      var a := Skip(s, p + 1, IsSpace);
      if a < |s| && s[a] == '[' then
        var x := NumberEnd(s, Skip(s, a + 1, IsSpace));
        if x < 0 then -1
        else
          var c := Skip(s, x, IsSpace);
          if c < |s| && s[c] == ',' then
            var y := NumberEnd(s, Skip(s, c + 1, IsSpace));
            if y < 0 then -1
            else
              var e := Skip(s, y, IsSpace);
              if e < |s| && s[e] == ']' then e + 1 else -1
          else -1
      else -1
  }

  // ------------------------------------------------------------ requirement

  const RequirementKeywords := ["requirement", "functionalRequirement", "performanceRequirement"]

  const RelationKeywords := ["contains", "copies", "derives", "satisfies", "verifies", "refines", "traces"]

  const RelationArrow := "->"

  /** `\s+-\s+(contains|copies|derives|satisfies|verifies|refines|traces)\s+->`. */
  function RequirementRelationEnd(s: string, p: nat): (r: int)
    ensures r >= 0 ==> p < r <= |s| && IsSpace(s[p])
  {
    if p >= |s| || !IsSpace(s[p]) then -1
    else
      var a := Skip(s, p, IsSpace);
      if a + 1 < |s| && s[a] == '-' && IsSpace(s[a + 1]) then
        var b := Skip(s, a + 1, IsSpace);
        var k := KeywordAt(s, b, RelationKeywords);
        if k == |RelationKeywords| then -1
        else
          var d := b + |RelationKeywords[k]|;
          if d < |s| && IsSpace(s[d]) then
            var e := Skip(s, d, IsSpace);
            if OccursAt(s, RelationArrow, e) then e + 2 else -1
          else -1
      else -1
  }

  // ---------------------------------------------------------------- the counts

  const Subgraph := "subgraph"
  const Participant := "participant"
  const ClassKeyword := "class"
  const Section := "section"
  const ElementKeyword := "element"
  const Commit := "commit"
  const Branch := "branch"

  function Matches(s: string, m: (string, nat) -> int): nat { CountMatches(s, m, 0) }

  /** Nodes and `subgraph` lines of a flowchart or graph. */
  function GraphCount(s: string): nat
  {
    Matches(s, NodeEnd) + Matches(s, KeywordLine([Subgraph], Spaces))
  }

  /** `participant` lines and arrows of a sequence diagram. */
  function SequenceCount(s: string): nat
  {
    Matches(s, KeywordLine([Participant], Spaces)) + Matches(s, ArrowEnd)
  }

  /** Class definitions and relationships of a class diagram. */
  function ClassCount(s: string): nat
  {
    Matches(s, KeywordLine([ClassKeyword], SpacesThenWord)) + Matches(s, ClassRelationEnd)
  }

  /** Entity blocks and relationships of an entity relationship diagram. */
  function ErCount(s: string): nat
  {
    Matches(s, EntityEnd) + Matches(s, ErRelationEnd)
  }

  /** `section` lines of a Gantt chart; its tasks are counted line by line. */
  function SectionCount(s: string): nat
  {
    Matches(s, KeywordLine([Section], Spaces))
  }

  /** Slices of a pie chart. */
  function PieCount(s: string): nat
  {
    Matches(s, SliceEnd)
  }

  /** Points of a quadrant chart. */
  function QuadrantCount(s: string): nat
  {
    Matches(s, PointEnd)
  }

  /** Requirements, elements and relationships of a requirement diagram. */
  function RequirementCount(s: string): nat
  {
    Matches(s, KeywordLine(RequirementKeywords, Spaces)) + Matches(s, KeywordLine([ElementKeyword], Spaces))
    + Matches(s, RequirementRelationEnd)
  }

  /** Commits and branches of a git graph. */
  function GitCount(s: string): nat
  {
    Matches(s, KeywordLine([Commit], Nothing)) + Matches(s, KeywordLine([Branch], Spaces))
  }

  /** Every count is a count of non-empty, non-overlapping matches, so none exceeds the length. */
  lemma CountsBounded(s: string)
    ensures GraphCount(s) <= 2 * |s| && SequenceCount(s) <= 2 * |s| && ClassCount(s) <= 2 * |s|
    ensures ErCount(s) <= 2 * |s| && SectionCount(s) <= |s| && PieCount(s) <= |s| && QuadrantCount(s) <= |s|
    ensures RequirementCount(s) <= 3 * |s| && GitCount(s) <= 2 * |s|
  {
  }

  /** A `subgraph` line adds to the graph count. */
  lemma SubgraphCounted(s: string, p: nat, q: nat)
    requires LineStart(s, p) && p <= q < |s| && forall k :: p <= k < q ==> IsSpace(s[k])
    requires OccursAt(s, Subgraph, q) && q + |Subgraph| < |s| && IsSpace(s[q + |Subgraph|])
    ensures Matches(s, KeywordLine([Subgraph], Spaces)) > 0
  {
    KeywordLineMatches(s, p, Subgraph, q);
    CountMatchesZeroIff(s, KeywordLine([Subgraph], Spaces), 0);
    assert p < KeywordLine([Subgraph], Spaces)(s, p) <= |s|;
  }

  /** Text with no quote has no pie slice. */
  lemma SlicesNeedQuotes(s: string)
    requires '"' !in s
    ensures PieCount(s) == 0
  {
    CountMatchesZeroIff(s, SliceEnd, 0);
    forall i | 0 <= i < |s| ensures !(i < SliceEnd(s, i) <= |s|) {
      var q := Skip(s, i, IsSpace);
      if q < |s| { assert s[q] in s; }
    }
  }

  /** Text with no colon has no quadrant point. */
  lemma PointsNeedColons(s: string)
    requires ':' !in s
    ensures QuadrantCount(s) == 0
  {
    CountMatchesZeroIff(s, PointEnd, 0);
    forall i | 0 <= i < |s| ensures !(i < PointEnd(s, i) <= |s|) {
      assert s[i] in s;
    }
  }

  /** Text with no dash has no sequence arrow. */
  lemma ArrowsNeedDashes(s: string)
    requires '-' !in s
    ensures Matches(s, ArrowEnd) == 0
  {
    CountMatchesZeroIff(s, ArrowEnd, 0);
    forall i | 0 <= i < |s| ensures !(i < ArrowEnd(s, i) <= |s|) {
      assert s[i] in s;
    }
  }
}
