/**
 * The element-count check for Mermaid diagrams: front matter, `%%` comments
 * and blank lines are dropped, the diagram type is read off the first line
 * that remains, the elements of that type are collected line by line and
 * counted once each, and the check fails when a diagram outside `archive`
 * has more than 15 elements.
 */
module DiagramElements {
  import opened Wrappers
  import opened Str
  import Seqs
  import Lex

  /** The most elements a diagram may have. */
  const Limit: nat := 15

  // ------------------------------------------------------ kept lines

  /**
   * The stripped lines the scan keeps, starting inside front matter when
   * `inFront`: a `---` line toggles front matter and is dropped, and so is
   * every line inside front matter, every `%%` comment and every blank line.
   */
  function Kept(lines: seq<string>, inFront: bool): seq<string>
    decreases |lines|
  {
    if lines == [] then []
    else
      var s := Strip(lines[0]);
      if s == "---" then Kept(lines[1..], !inFront)
      else if inFront || StartsWith(s, "%%") || s == "" then Kept(lines[1..], inFront)
      else [s] + Kept(lines[1..], inFront)
  }

  /** A kept line is stripped, not blank, not a comment and not a front matter marker. */
  lemma {:induction false} KeptLines(lines: seq<string>, inFront: bool)
    ensures forall k :: 0 <= k < |Kept(lines, inFront)| ==>
              var s := Kept(lines, inFront)[k];
              s != "" && Strip(s) == s && !StartsWith(s, "%%") && s != "---"
    decreases |lines|
  {
    if lines != [] {
      KeptLines(lines[1..], inFront);
      KeptLines(lines[1..], !inFront);
      StripOfStripped(lines[0]);
    }
  }

  /** Inside front matter, lines up to the closing `---` are dropped. */
  lemma {:induction false} InsideFrontMatter(fm: seq<string>, body: seq<string>)
    requires forall k :: 0 <= k < |fm| ==> Strip(fm[k]) != "---"
    ensures Kept(fm + ["---"] + body, true) == Kept(body, false)
    decreases |fm|
  {
    var xs := fm + ["---"] + body;
    if fm == [] {
      assert xs[1..] == body;
    } else {
      assert xs[0] == fm[0] && xs[1..] == fm[1..] + ["---"] + body;
      InsideFrontMatter(fm[1..], body);
    }
  }

  /** A closed front matter block at the top is skipped whole. */
  lemma FrontMatterSkipped(fm: seq<string>, body: seq<string>)
    requires forall k :: 0 <= k < |fm| ==> Strip(fm[k]) != "---"
    ensures Kept(["---"] + fm + ["---"] + body, false) == Kept(body, false)
  {
    var xs := ["---"] + fm + ["---"] + body;
    assert xs[1..] == fm + ["---"] + body;
    StripUnspaced("---");
    InsideFrontMatter(fm, body);
  }

  /** A front matter block that is never closed hides every later line. */
  lemma {:induction false} UnclosedFrontMatterHidesAll(rest: seq<string>)
    requires forall k :: 0 <= k < |rest| ==> Strip(rest[k]) != "---"
    ensures Kept(rest, true) == []
    decreases |rest|
  {
    if rest != [] {
      UnclosedFrontMatterHidesAll(rest[1..]);
    }
  }

  /** One step of the scan, at line `i`. */
  lemma KeptAt(lines: seq<string>, i: nat, inFront: bool)
    requires i < |lines|
    ensures Kept(lines[i..], inFront) ==
              var s := Strip(lines[i]);
              if s == "---" then Kept(lines[i + 1..], !inFront)
              else if inFront || StartsWith(s, "%%") || s == "" then Kept(lines[i + 1..], inFront)
              else [s] + Kept(lines[i + 1..], inFront)
  {
    assert lines[i..][0] == lines[i] && lines[i..][1..] == lines[i + 1..];
  }

  /** The line loop of `count_diagram_elements` that toggles `in_front_matter`. */
  method FilterLines(lines: seq<string>) returns (filtered: seq<string>)
    ensures filtered == Kept(lines, false)
  {
    filtered := [];
    var inFront := false;
    var i := 0;
    while i < |lines|
      invariant 0 <= i <= |lines|
      invariant filtered + Kept(lines[i..], inFront) == Kept(lines, false)
    {
      var stripped := Strip(lines[i]);
      KeptAt(lines, i, inFront);
      if stripped == "---" {
        inFront := !inFront;
      } else if !inFront && !StartsWith(stripped, "%%") && stripped != "" {
        Seqs.AppendAssoc(filtered, [stripped], Kept(lines[i + 1..], inFront));
        filtered := filtered + [stripped];
      }
      i := i + 1;
    }
    assert lines[i..] == [];
    assert filtered + [] == filtered;
  }

  // ------------------------------------------------------ diagram type

  /** The type named by the first kept line: the first keyword it contains, in a fixed order. */
  function DiagramType(first: string): (r: string)
    ensures var l := Lower(first);
            r == "unknown" <==>
              !Contains(l, "graph") && !Contains(l, "flowchart") && !Contains(l, "sequencediagram")
              && !Contains(l, "classdiagram") && !Contains(l, "mindmap") && !Contains(l, "pie")
              && !Contains(l, "gantt") && !Contains(l, "quadrantchart") && !Contains(l, "journey")
              && !Contains(l, "statediagram") && !Contains(l, "erdiagram") && !Contains(l, "timeline")
    ensures r == "flowchart" <==> Contains(Lower(first), "graph") || Contains(Lower(first), "flowchart")
  {
    var l := Lower(first);
    if Contains(l, "graph") || Contains(l, "flowchart") then "flowchart"
    else if Contains(l, "sequencediagram") then "sequence"
    else if Contains(l, "classdiagram") then "class"
    else if Contains(l, "mindmap") then "mindmap"
    else if Contains(l, "pie") then "pie"
    else if Contains(l, "gantt") then "gantt"
    else if Contains(l, "quadrantchart") then "quadrant"
    else if Contains(l, "journey") then "user_journey"
    else if Contains(l, "statediagram") then "state"
    else if Contains(l, "erdiagram") then "entity_relationship"
    else if Contains(l, "timeline") then "timeline"
    else "unknown"
  }

  /** The type of a diagram whose kept lines are `filtered`: "unknown" when none is left. */
  function TypeOf(filtered: seq<string>): string
  {
    if filtered == [] then "unknown" else DiagramType(filtered[0])
  }

  /** The keyword test is by substring: any word holding "graph" names a flowchart. */
  lemma GraphAnywhere(pre: string, post: string)
    requires forall i :: 0 <= i < |pre| ==> !IsUpper(pre[i])
    ensures DiagramType(pre + "graph" + post) == "flowchart"
  {
    var s := pre + "graph" + post;
    var l := Lower(s);
    assert l[|pre|..|pre| + 5] == "graph" by {
      forall i | 0 <= i < 5 ensures l[|pre| + i] == "graph"[i] {
        assert s[|pre| + i] == "graph"[i];
      }
    }
    ContainsAt(l, "graph", |pre|);
  }

  // ------------------------------------------------------ flowchart nodes

  /** `[A-Za-z0-9_]`. */
  predicate IsIdChar(c: char) { IsAsciiUpper(c) || IsAsciiLower(c) || IsDigit(c) || c == '_' }

  predicate IsOpening(c: char) { c == '[' || c == '(' || c == '{' }

  /**
   * The length of the match of `([A-Z][A-Za-z0-9_]*)\s*[\[\(\{]` at the front
   * of `s`, or 0: an id starting with a capital, optional whitespace and an
   * opening bracket. Both runs are greedy and what follows each one cannot
   * continue it, so no shorter match exists.
   */
  function NodeMatch(s: string): (e: nat)
    ensures e <= |s|
    ensures e > 0 ==> IsAsciiUpper(s[0]) && 1 <= Span(s, IsIdChar) < e
  {
    if s != [] && IsAsciiUpper(s[0]) then
      var k := Span(s, IsIdChar);
      var w := Span(s[k..], IsSpace);
      if k + w < |s| && IsOpening(s[k + w]) then k + w + 1 else 0
    else 0
  }

  /** A node id: a capital followed by id characters. */
  predicate IsNodeId(id: string)
  {
    id != [] && IsAsciiUpper(id[0]) && forall i :: 0 <= i < |id| ==> IsIdChar(id[i])
  }

  /**
   * `re.findall(r'\b([A-Z][A-Za-z0-9_]*)\s*[\[\(\{]', line)`, scanning `s`
   * with `afterWord` telling whether the character before it is a word
   * character (then `\b` fails). A match ends at a bracket, which is not one.
   */
  function FlowNodes(s: string, afterWord: bool): (r: seq<string>)
    ensures forall k :: 0 <= k < |r| ==> IsNodeId(r[k])
    decreases |s|
  {
    if s == [] then []
    else if !afterWord && NodeMatch(s) > 0 then
      var id := s[..Span(s, IsIdChar)];
      SpanCovers(s, Span(s, IsIdChar), IsIdChar);
      [id] + FlowNodes(s[NodeMatch(s)..], false)
    else FlowNodes(s[1..], IsWordChar(s[0]))
  }

  lemma IdRun(id: string, rest: string)
    requires IsNodeId(id) && rest != [] && IsOpening(rest[0])
    ensures Span(id + rest, IsIdChar) == |id|
  {
    SpanOfPrefix(id, rest, IsIdChar);
  }

  lemma NoSpaceRun(rest: string)
    requires rest != [] && IsOpening(rest[0])
    ensures Span(rest, IsSpace) == 0
  {
  }

  /** A node written `Id[…`, `Id(…` or `Id{…` at a word boundary is collected by its id. */
  lemma NodeAtFront(id: string, rest: string)
    requires IsNodeId(id) && rest != [] && IsOpening(rest[0])
    ensures FlowNodes(id + rest, false) == [id] + FlowNodes(rest[1..], false)
  {
    var s := id + rest;
    IdRun(id, rest);
    assert s[|id|..] == rest;
    NoSpaceRun(rest);
    assert NodeMatch(s) == |id| + 1;
    assert s[..|id|] == id;
    assert s[|id| + 1..] == rest[1..];
  }

  // ------------------------------------------------------ class names

  /**
   * The match of `class\s+(\w+)` at the front of `s`: its group and its
   * length. `class` may end a longer word; `classDiagram` has no blank after it.
   */
  function ClassMatch(s: string): (m: Option<(string, nat)>)
    ensures m.Some? ==> 7 <= m.value.1 <= |s| && m.value.0 != [] && forall i :: 0 <= i < |m.value.0| ==> IsWordChar(m.value.0[i])
  {
    if OccursAt(s, "class", 0) then
      var w := Span(s[5..], IsSpace);
      if w > 0 && 5 + w < |s| && IsWordChar(s[5 + w]) then
        var k := Span(s[5 + w..], IsWordChar);
        SpanCovers(s[5 + w..], k, IsWordChar);
        Some((s[5 + w..5 + w + k], 5 + w + k))
      else None
    else None
  }

  /** `re.findall(r'class\s+(\w+)', line)`. */
  function ClassNames(s: string): (r: seq<string>)
    ensures forall k :: 0 <= k < |r| ==> r[k] != [] && forall i :: 0 <= i < |r[k]| ==> IsWordChar(r[k][i])
    decreases |s|
  {
    if s == [] then []
    else match ClassMatch(s) {
      case Some((name, e)) => [name] + ClassNames(s[e..])
      case None => ClassNames(s[1..])
    }
  }

  /** `class Name` followed by a non-word character gives `Name`. */
  lemma ClassAtFront(name: string, rest: string)
    requires name != [] && forall i :: 0 <= i < |name| ==> IsWordChar(name[i])
    requires rest == [] || !IsWordChar(rest[0])
    ensures ClassNames("class " + name + rest) == [name] + ClassNames(rest)
  {
    var s := "class " + name + rest;
    assert s[..5] == "class";
    assert s[5..] == " " + (name + rest);
    SpanOfPrefix(" ", name + rest, IsSpace);
    assert s[6..] == name + rest;
    SpanOfPrefix(name, rest, IsWordChar);
    assert s[6..6 + |name|] == name;
    assert s[6 + |name|..] == rest;
  }

  // ------------------------------------------------------ elements

  /** `stripped.lower().startswith(x)` for one of the gantt keywords. */
  predicate GanttKeyword(l: string)
  {
    StartsWith(l, "gantt") || StartsWith(l, "title") || StartsWith(l, "dateformat")
    || StartsWith(l, "section") || StartsWith(l, "axisformat")
  }

  predicate QuadrantKeyword(l: string)
  {
    Contains(l, "quadrant") || Contains(l, "title") || Contains(l, "x-axis") || Contains(l, "y-axis")
  }

  /** A message line of a sequence diagram, by the three arrow tests. */
  predicate IsMessage(s: string)
  {
    Contains(s, "-->") || Contains(s, "->>") || Contains(s, "->")
  }

  /** What one kept line at 0-based position `index` adds for a diagram of type `kind`. */
  function LineElements(kind: string, line: string, index: nat): seq<string>
  {
    var st := Strip(line);
    if kind == "flowchart" then (if index == 0 then [] else FlowNodes(line, false))
    else if kind == "mindmap" then (if index == 0 || st == "" || StartsWith(st, "root") then [] else [st])
    else if kind == "pie" then (if ':' in line && !StartsWith(Lower(line), "pie") then [st] else [])
    else if kind == "gantt" then (if st != "" && !GanttKeyword(Lower(st)) && ':' in st then [st] else [])
    else if kind == "quadrant" then
      (if ':' in line && '[' in line && ']' in line && !QuadrantKeyword(Lower(line)) then [st] else [])
    else if kind == "sequence" then
      (if index == 0 then [] else if StartsWith(st, "participant ") || IsMessage(st) then [st] else [])
    else if kind == "class" then ClassNames(line)
    else []
  }

  /** The elements collected from the kept lines, in order, duplicates included. */
  function Elements(kind: string, lines: seq<string>): seq<string>
    decreases |lines|
  {
    if lines == [] then []
    else Elements(kind, lines[..|lines| - 1]) + LineElements(kind, lines[|lines| - 1], |lines| - 1)
  }

  /** The three arrow tests amount to one: `-->` and `->>` both contain `->`. */
  lemma MessageIsArrow(s: string)
    ensures IsMessage(s) <==> Contains(s, "->")
  {
    ContainsIff(s, "-->");
    ContainsIff(s, "->>");
    ContainsIff(s, "->");
    if Contains(s, "-->") {
      var i: nat :| OccursAt(s, "-->", i);
      assert s[i + 1..i + 3] == s[i..i + 3][1..];
      assert OccursAt(s, "->", i + 1);
    }
    if Contains(s, "->>") {
      var i: nat :| OccursAt(s, "->>", i);
      assert s[i..i + 2] == s[i..i + 3][..2];
      assert OccursAt(s, "->", i);
    }
  }

  /** Only the listed types have elements: any other kind counts 0. */
  lemma {:induction false} OtherKindsEmpty(kind: string, lines: seq<string>)
    requires kind !in {"flowchart", "mindmap", "pie", "gantt", "quadrant", "sequence", "class"}
    ensures Elements(kind, lines) == []
    decreases |lines|
  {
    if lines != [] {
      OtherKindsEmpty(kind, lines[..|lines| - 1]);
    }
  }

  /** The count of a diagram: 0 for a file that cannot be read, else its distinct elements. */
  function ElementCount(content: Option<string>): nat
  {
    match content {
      case None => 0
      case Some(text) =>
        var filtered := Kept(Split(text, '\n'), false);
        |Seqs.Dedup(Elements(TypeOf(filtered), filtered))|
    }
  }

  /**
   * `count_diagram_elements`, given the file's text or `None` when reading
   * it raises: the distinct elements in first-occurrence order and their number.
   */
  method CountDiagramElements(content: Option<string>) returns (count: nat, kind: string, unique: seq<string>)
    ensures content.None? ==> count == 0 && kind == "error" && unique == []
    ensures content.Some? ==>
              var filtered := Kept(Split(content.value, '\n'), false);
              kind == TypeOf(filtered) && unique == Seqs.Dedup(Elements(kind, filtered))
    ensures count == |unique| == ElementCount(content)
    ensures forall i, j :: 0 <= i < j < |unique| ==> unique[i] != unique[j]
  {
    if content.None? {
      return 0, "error", [];
    }
    var lines := Split(content.value, '\n');
    var filtered := FilterLines(lines);
    kind := TypeOf(filtered);
    var elements: seq<string> := [];
    var i := 0;
    while i < |filtered|
      invariant 0 <= i <= |filtered|
      invariant elements == Elements(kind, filtered[..i])
    {
      assert filtered[..i + 1][..i] == filtered[..i];
      elements := elements + LineElements(kind, filtered[i], i);
      i := i + 1;
    }
    assert filtered[..i] == filtered;
    unique := Seqs.Dedup(elements);
    count := |unique|;
  }

  // ------------------------------------------------------ main

  /** A `.mmd` file under `docs/images/`: its full path, its name and its text, `None` when unreadable. */
  datatype Diagram = Diagram(path: string, name: string, content: Option<string>)

  /** One line of the failure listing. */
  datatype Flag = Flag(name: string, count: nat, kind: string, elements: seq<string>)

  /** `'archive' not in str(f)`. */
  predicate InScope(d: Diagram) { !Contains(d.path, "archive") }

  predicate OverLimit(d: Diagram) { ElementCount(d.content) > Limit }

  function PathOf(d: Diagram): string { d.path }

  /** The diagrams checked, in path order. */
  function Checked(files: seq<Diagram>): (r: seq<Diagram>)
    ensures forall d :: d in r <==> d in files && InScope(d)
  {
    var r := Lex.SortBy(Seqs.Filter(files, InScope), PathOf);
    forall d ensures d in r <==> d in Seqs.Filter(files, InScope) {
      Lex.SortByMembers(Seqs.Filter(files, InScope), PathOf, d);
    }
    r
  }

  /** `main`: a missing images directory fails, no diagram passes, and otherwise the over-limit ones are listed. */
  method RunMain(imagesExist: bool, files: seq<Diagram>) returns (exitCode: int, flagged: seq<Diagram>)
    ensures flagged == (if imagesExist then Seqs.Filter(Checked(files), OverLimit) else [])
    ensures exitCode == (if !imagesExist || flagged != [] then 1 else 0)
  {
    if !imagesExist {
      return 1, [];
    }
    var checked := Checked(files);
    if checked == [] {
      return 0, [];
    }
    var exceeding: seq<Flag> := [];
    flagged := [];
    for i := 0 to |checked|
      invariant flagged == Seqs.Filter(checked[..i], OverLimit) && |exceeding| == |flagged|
    {
      Seqs.PrefixSnoc(checked, i);
      Seqs.FilterSnoc(checked[..i], checked[i], OverLimit);
      var count, kind, elements := CountDiagramElements(checked[i].content);
      if count > Limit {
        exceeding := exceeding + [Flag(checked[i].name, count, kind, elements)];
        flagged := flagged + [checked[i]];
      }
    }
    Seqs.PrefixAll(checked);
    exitCode := if flagged != [] then 1 else 0;
  }

  /** The check fails exactly when the directory is missing or some diagram outside `archive` has over 15 elements. */
  lemma MainFailsIff(imagesExist: bool, files: seq<Diagram>)
    ensures (if !imagesExist || Seqs.Filter(Checked(files), OverLimit) != [] then 1 else 0) == 1 <==>
              !imagesExist || exists d :: d in files && InScope(d) && ElementCount(d.content) > Limit
  {
    var c := Checked(files);
    if exists d :: d in files && InScope(d) && ElementCount(d.content) > Limit {
      var d :| d in files && InScope(d) && ElementCount(d.content) > Limit;
      assert d in Seqs.Filter(c, OverLimit);
    }
    if Seqs.Filter(c, OverLimit) != [] {
      var d := Seqs.Filter(c, OverLimit)[0];
      assert d in Seqs.Filter(c, OverLimit);
    }
  }
}
