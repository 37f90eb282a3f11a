/**
 * The diagram complexity analyser: it detects the type of each Mermaid
 * diagram file, counts its elements with a counter chosen by type, keeps a
 * result per analysed path, reports complex diagrams (more elements than the
 * threshold) by descending element count and exits with 1 when any is complex.
 */
module DiagramComplexity {
  import opened Wrappers
  import opened Str
  import opened MermaidPatterns
  import Seqs
  import Sorted
  import Lex
  import Paths

  const DefaultThreshold: int := 15

  /** The diagram types the analyser recognises, and `Unknown` for anything else. */
  datatype DiagramType =
    | Graph | Flowchart | SequenceDiagram | ClassDiagram | ErDiagram | Mindmap
    | Gantt | Pie | QuadrantChart | RequirementDiagram | GitGraph | Unknown

  /** The lowercased prefix that names each recognised type; `graph ` and `flowchart ` need the space. */
  function Prefix(t: DiagramType): string
  {
    match t
    case Graph => "graph "
    case Flowchart => "flowchart "
    case SequenceDiagram => "sequencediagram"
    case ClassDiagram => "classdiagram"
    case ErDiagram => "erdiagram"
    case Mindmap => "mindmap"
    case Gantt => "gantt"
    case Pie => "pie"
    case QuadrantChart => "quadrantchart"
    case RequirementDiagram => "requirementdiagram"
    case GitGraph => "gitgraph"
    case Unknown => ""
  }

  /** The order in which the prefixes are tried. */
  const TypeOrder: seq<DiagramType> := [
    Graph, Flowchart, SequenceDiagram, ClassDiagram, ErDiagram, Mindmap,
    Gantt, Pie, QuadrantChart, RequirementDiagram, GitGraph]

  /** The text the type prefixes are matched against: `content.lower().strip()`. */
  function Normalized(content: string): string { Strip(Lower(content)) }

  predicate Named(s: string, t: DiagramType) { StartsWith(s, Prefix(t)) }

  /** The position of the first type whose prefix `s` starts with, `|TypeOrder|` when none. */
  function FirstPrefix(s: string): (k: nat)
    ensures k <= |TypeOrder|
    ensures k < |TypeOrder| ==> Named(s, TypeOrder[k])
    ensures forall j :: 0 <= j < k ==> !Named(s, TypeOrder[j])
  {
    Seqs.FirstIndex(TypeOrder, NamedBy(s))
  }

  function NamedBy(s: string): DiagramType -> bool { t => Named(s, t) }

  /** `detect_diagram_type`: the type of the first prefix that matches, else `Unknown`. */
  function DetectDiagramType(content: string): (t: DiagramType)
  {
    TypeNamed(Normalized(content))
  }

  /** The type of the first prefix `s` starts with, else `Unknown`. */
  function TypeNamed(s: string): DiagramType
  {
    var k := FirstPrefix(s);
    if k < |TypeOrder| then TypeOrder[k] else Unknown
  }

  /** Where a recognised type stands in `TypeOrder`. */
  function Position(t: DiagramType): nat
  {
    match t
    case Graph => 0
    case Flowchart => 1
    case SequenceDiagram => 2
    case ClassDiagram => 3
    case ErDiagram => 4
    case Mindmap => 5
    case Gantt => 6
    case Pie => 7
    case QuadrantChart => 8
    case RequirementDiagram => 9
    case GitGraph => 10
    case Unknown => 11
  }

  /** Every type is tried once: the type at position `k` stands at position `k`. */
  lemma OrderPosition(k: nat)
    requires k < |TypeOrder|
    ensures Position(TypeOrder[k]) == k
  {
  }

  /** The type at position `k` is named by `s` exactly when its prefix is the first to match. */
  lemma TypeNamedIff(s: string, k: nat)
    requires k < |TypeOrder|
    ensures TypeNamed(s) == TypeOrder[k]
            <==> Named(s, TypeOrder[k]) && forall j :: 0 <= j < k ==> !Named(s, TypeOrder[j])
  {
    var f := FirstPrefix(s);
    Seqs.FirstIndexIff(TypeOrder, NamedBy(s), k);
    if TypeNamed(s) == TypeOrder[k] {
      assert f < |TypeOrder|;
      OrderPosition(f);
      OrderPosition(k);
    }
  }

  /** The type at position `k` is detected exactly when its prefix is the first to match. */
  lemma DetectIff(content: string, k: nat)
    requires k < |TypeOrder|
    ensures DetectDiagramType(content) == TypeOrder[k]
            <==> Named(Normalized(content), TypeOrder[k])
                 && forall j :: 0 <= j < k ==> !Named(Normalized(content), TypeOrder[j])
  {
    TypeNamedIff(Normalized(content), k);
  }

  /** Content that starts with none of the prefixes is of unknown type, and only such content. */
  lemma DetectUnknown(content: string)
    ensures DetectDiagramType(content) == Unknown
            <==> forall j :: 0 <= j < |TypeOrder| ==> !Named(Normalized(content), TypeOrder[j])
  {
    assert Unknown !in TypeOrder;
  }

  /** The bare word `graph`, without the space, is not recognised as a graph. */
  lemma GraphNeedsSpace(content: string)
    requires Normalized(content) == "graph"
    ensures DetectDiagramType(content) == Unknown
  {
    var s := Normalized(content);
    assert s[0] == 'g' && s[1] == 'r' && |s| == 5;
    forall j | 0 <= j < |TypeOrder|
      ensures !Named(s, TypeOrder[j])
    {
      var p := Prefix(TypeOrder[j]);
      assert |p| > 5 || p[0] != 'g' || p[1] != 'r';
      if |p| <= 5 { assert s[..|p|][0] == s[0] && s[..|p|][1] == s[1]; }
    }
    DetectUnknown(content);
  }

  // --------------------------------------------------------------- counters

  const MindmapKeyword := "mindmap"

  /** A mindmap node: a non-blank line that is not a `%%` comment or the bare keyword. */
  predicate MindmapNode(line: string)
  {
    var s := Strip(line);
    s != [] && !StartsWith(s, "%%") && s != MindmapKeyword
  }

  const GanttKeywords := ["title", "dateFormat", "axisFormat", "section", "%%"]

  predicate StartsWithAny(s: string, ps: seq<string>)
  {
    exists k :: 0 <= k < |ps| && StartsWith(s, ps[k])
  }

  /** A Gantt task: a line with a colon whose stripped text starts with no configuration keyword. */
  predicate GanttTask(line: string)
  {
    ':' in line && !StartsWithAny(Strip(line), GanttKeywords)
  }

  /** A line the generic counter sees: non-blank, not a `%%` comment, not `---`. */
  predicate GenericLine(line: string)
  {
    var s := Strip(line);
    s != [] && !StartsWith(s, "%%") && !StartsWith(s, "---")
  }

  /** The generic estimate: the counted lines less three for configuration, never below zero. */
  function GenericCount(lines: seq<string>): nat
  {
    var n := |Seqs.Filter(lines, GenericLine)|;
    if n > 3 then n - 3 else 0
  }

  /** `count_elements`: the counter chosen by type, the generic one for an unknown type. */
  function ElementCount(content: string, diagramType: DiagramType): nat
  {
    match diagramType
    case Graph => GraphCount(content)
    case Flowchart => GraphCount(content)
    case SequenceDiagram => SequenceCount(content)
    case ClassDiagram => ClassCount(content)
    case ErDiagram => ErCount(content)
    case Mindmap => |Seqs.Filter(Split(content, '\n'), MindmapNode)|
    case Gantt => SectionCount(content) + |Seqs.Filter(Split(content, '\n'), GanttTask)|
    case Pie => PieCount(content)
    case QuadrantChart => QuadrantCount(content)
    case RequirementDiagram => RequirementCount(content)
    case GitGraph => GitCount(content)
    case Unknown => GenericCount(Split(content, '\n'))
  }

  /** The generic count is the counted lines less three, and nothing when there are three or fewer. */
  lemma GenericCountBounds(lines: seq<string>)
    ensures GenericCount(lines) <= |lines|
    ensures GenericCount(lines) + 3 >= |Seqs.Filter(lines, GenericLine)|
    ensures |Seqs.Filter(lines, GenericLine)| <= 3 <==> GenericCount(lines) == 0
  {
  }

  /** Blank lines, comments and the `mindmap` keyword add no node. */
  lemma {:induction false} MindmapSkips(before: seq<string>, line: string, after: seq<string>)
    requires !MindmapNode(line)
    ensures |Seqs.Filter(before + [line] + after, MindmapNode)| == |Seqs.Filter(before + after, MindmapNode)|
  {
    Seqs.FilterAppend(before + [line], after, MindmapNode);
    Seqs.FilterSnoc(before, line, MindmapNode);
    Seqs.FilterAppend(before, after, MindmapNode);
  }

  /** A `mindmap` keyword line followed by node lines counts every node. */
  lemma {:induction false} MindmapCountsNodes(nodes: seq<string>)
    requires forall k :: 0 <= k < |nodes| ==> MindmapNode(nodes[k])
    ensures |Seqs.Filter([MindmapKeyword] + nodes, MindmapNode)| == |nodes|
  {
    StripUnspaced(MindmapKeyword);
    MindmapSkips([], MindmapKeyword, nodes);
    assert [] + [MindmapKeyword] + nodes == [MindmapKeyword] + nodes;
    assert [] + nodes == nodes;
    Seqs.FilterAll(nodes, MindmapNode);
  }

  /** The mindmap counter's loop. */
  method CountMindmapElements(content: string) returns (elements: nat)
    ensures elements == |Seqs.Filter(Split(content, '\n'), MindmapNode)|
  {
    elements := Seqs.Count(Split(content, '\n'), MindmapNode);
  }

  /** The Gantt counter: sections by pattern, then tasks line by line. */
  method CountGanttElements(content: string) returns (elements: nat)
    ensures elements == SectionCount(content) + |Seqs.Filter(Split(content, '\n'), GanttTask)|
  {
    elements := SectionCount(content);
    var tasks := Seqs.Count(Split(content, '\n'), GanttTask);
    elements := elements + tasks;
  }

  /** The generic counter's loop, then `max(0, elements - 3)`. */
  method CountGenericElements(content: string) returns (elements: nat)
    ensures elements == GenericCount(Split(content, '\n'))
  {
    var counted := Seqs.Count(Split(content, '\n'), GenericLine);
    elements := if counted > 3 then counted - 3 else 0;
  }

  /** `count_elements`, dispatching to the counters. */
  method CountElements(content: string, diagramType: DiagramType) returns (elements: nat)
    ensures elements == ElementCount(content, diagramType)
  {
    match diagramType
    case Mindmap =>
      elements := CountMindmapElements(content);
    case Gantt =>
      elements := CountGanttElements(content);
    case Unknown =>
      elements := CountGenericElements(content);
    case _ =>
      elements := ElementCount(content, diagramType);
  }

  // ---------------------------------------------------------------- analysis

  datatype Failure = ReadFailed | EmptyFile

  /** The result of `analyze_file`; a failure counts 0 elements of unknown type. */
  datatype Outcome =
    | Analysed(elements: nat, diagramType: DiagramType, isComplex: bool, filepath: string)
    | Failed(error: Failure)

  /** `analyze_file` on a path and its content (`None` when it cannot be read). */
  function Analyse(path: string, content: Option<string>, threshold: int): (r: Outcome)
    ensures r.Failed? <==> content.None? || IsBlank(content.value)
    ensures r == Failed(ReadFailed) <==> content.None?
    ensures r.Analysed? ==> r.filepath == path && (r.isComplex <==> r.elements > threshold)
    ensures r.Analysed? ==> r.diagramType == DetectDiagramType(content.value)
  {
    match content
    case None => Failed(ReadFailed)
    case Some(text) =>
      if Strip(text) == [] then Failed(EmptyFile)
      else
        var t := DetectDiagramType(text);
        var n := ElementCount(text, t);
        Analysed(n, t, n > threshold, path)
  }

  /** What a stored result must be: an analysis of its own path, complex exactly above the threshold. */
  predicate StoredFor(o: Outcome, path: string, threshold: int)
  {
    o.Analysed? && o.filepath == path && (o.isComplex <==> o.elements > threshold)
  }

  /** The results map with its keys in insertion order, as a Python dict keeps them. */
  predicate Consistent(results: map<string, Outcome>, paths: seq<string>, threshold: int)
  {
    Seqs.Distinct(paths)
    && (forall p :: p in results ==> p in paths && StoredFor(results[p], p, threshold))
    && forall i :: 0 <= i < |paths| ==> paths[i] in results
  }

  /** The results after one analysis: a failure is not stored, a result is stored under its path. */
  function Record(results: map<string, Outcome>, paths: seq<string>, r: Outcome): (map<string, Outcome>, seq<string>)
  {
    if r.Failed? then (results, paths)
    else (results[r.filepath := r], if r.filepath in results then paths else paths + [r.filepath])
  }

  lemma RecordConsistent(results: map<string, Outcome>, paths: seq<string>, threshold: int, r: Outcome)
    requires Consistent(results, paths, threshold)
    requires r.Failed? || StoredFor(r, r.filepath, threshold)
    ensures Consistent(Record(results, paths, r).0, Record(results, paths, r).1, threshold)
  {
    if r.Analysed? && r.filepath !in results {
      var ps := paths + [r.filepath];
      forall i, j | 0 <= i < j < |ps| ensures ps[i] != ps[j] {
        if j == |paths| { assert ps[i] in paths; }
      }
    }
  }

  /** The outcomes of analysing files in turn. */
  function Outcomes(files: seq<(string, Option<string>)>, threshold: int): (os: seq<Outcome>)
    ensures |os| == |files|
    ensures forall k :: 0 <= k < |files| ==> os[k] == Analyse(files[k].0, files[k].1, threshold)
  {
    if files == [] then []
    else Outcomes(files[..|files| - 1], threshold) + [Analyse(files[|files| - 1].0, files[|files| - 1].1, threshold)]
  }

  /** The results after recording outcomes in turn. */
  function Replay(results: map<string, Outcome>, paths: seq<string>, os: seq<Outcome>): (map<string, Outcome>, seq<string>)
  {
    if os == [] then (results, paths)
    else
      var before := Replay(results, paths, os[..|os| - 1]);
      Record(before.0, before.1, os[|os| - 1])
  }

  lemma OutcomesSnoc(files: seq<(string, Option<string>)>, f: (string, Option<string>), threshold: int)
    ensures Outcomes(files + [f], threshold) == Outcomes(files, threshold) + [Analyse(f.0, f.1, threshold)]
  {
    assert (files + [f])[..|files|] == files;
  }

  lemma ReplaySnoc(results: map<string, Outcome>, paths: seq<string>, os: seq<Outcome>, o: Outcome)
    ensures Replay(results, paths, os + [o]) == Record(Replay(results, paths, os).0, Replay(results, paths, os).1, o)
  {
    assert (os + [o])[..|os|] == os;
  }

  /** No two files share a path, as in a directory listing. */
  predicate DistinctPaths(files: seq<(string, Option<string>)>)
  {
    forall i, j :: 0 <= i < j < |files| ==> files[i].0 != files[j].0
  }

  /** Outcomes an analyser with this threshold can produce, no two stored under one path. */
  predicate Storable(os: seq<Outcome>, threshold: int)
  {
    (forall k :: 0 <= k < |os| ==> os[k].Failed? || StoredFor(os[k], os[k].filepath, threshold))
    && forall i, j :: 0 <= i < j < |os| && os[i].Analysed? && os[j].Analysed? ==> os[i].filepath != os[j].filepath
  }

  /** An outcome at position `k` that is stored under `p`. */
  predicate StoredAt(os: seq<Outcome>, k: int, p: string)
  {
    0 <= k < |os| && os[k].Analysed? && os[k].filepath == p
  }

  /**
   * Recording storable outcomes from nothing keeps, under each path, the one
   * outcome stored for it, and stores nothing else.
   */
  lemma {:induction false} ReplayStores(os: seq<Outcome>, threshold: int)
    requires Storable(os, threshold)
    ensures Consistent(Replay(map[], [], os).0, Replay(map[], [], os).1, threshold)
    ensures forall p :: p in Replay(map[], [], os).0 <==> exists k :: StoredAt(os, k, p)
    ensures forall k :: 0 <= k < |os| && os[k].Analysed? ==>
              os[k].filepath in Replay(map[], [], os).0 && Replay(map[], [], os).0[os[k].filepath] == os[k]
  {
    if os != [] {
      var n := |os| - 1;
      var init := os[..n];
      var r := os[n];
      assert forall k :: 0 <= k < n ==> init[k] == os[k];
      assert Storable(init, threshold);
      ReplayStores(init, threshold);
      var before := Replay(map[], [], init);
      RecordConsistent(before.0, before.1, threshold, r);
      var after := Replay(map[], [], os);
      assert after == Record(before.0, before.1, r);
      forall p ensures p in after.0 <==> exists k :: StoredAt(os, k, p) {
        if p in after.0 {
          if r.Analysed? && p == r.filepath {
            assert StoredAt(os, n, p);
          } else {
            var k :| StoredAt(init, k, p);
            assert StoredAt(os, k, p);
          }
        }
        if exists k :: StoredAt(os, k, p) {
          var k :| StoredAt(os, k, p);
          if k < n {
            assert StoredAt(init, k, p);
          }
        }
      }
      forall k | 0 <= k < |os| && os[k].Analysed? ensures os[k].filepath in after.0 && after.0[os[k].filepath] == os[k] {
        assert StoredAt(os, k, os[k].filepath);
        if k < n {
          assert init[k] == os[k];
          if r.Analysed? { assert r.filepath != os[k].filepath; }
        }
      }
    }
  }

  /** The outcomes of distinct files are storable. */
  lemma OutcomesStorable(files: seq<(string, Option<string>)>, threshold: int)
    requires DistinctPaths(files)
    ensures Storable(Outcomes(files, threshold), threshold)
  {
  }

  // ------------------------------------------------------------ the analyser

  /** `DiagramComplexityAnalyzer`: the threshold and the results stored so far. */
  class Analyzer {
    const threshold: int
    var results: map<string, Outcome>
    /** The keys of `results` in the order they were first stored. */
    var paths: seq<string>

    ghost predicate Valid()
      reads this
    {
      Consistent(results, paths, threshold)
    }

    constructor(threshold: int)
      ensures this.threshold == threshold
      ensures results == map[] && paths == []
      ensures Valid()
    {
      this.threshold := threshold;
      results := map[];
      paths := [];
    }

    /** `analyze_file`: a failure leaves the results alone, a result is stored under its path. */
    method AnalyzeFile(path: string, content: Option<string>) returns (r: Outcome)
      requires Valid()
      modifies this
      ensures Valid()
      ensures r == Analyse(path, content, threshold)
      ensures (results, paths) == Record(old(results), old(paths), r)
    {
      if content.None? {
        return Failed(ReadFailed);
      }
      var text := content.value;
      if Strip(text) == [] {
        return Failed(EmptyFile);
      }
      var diagramType := DetectDiagramType(text);
      var elementCount := CountElements(text, diagramType);
      r := Analysed(elementCount, diagramType, elementCount > threshold, path);
      RecordConsistent(results, paths, threshold, r);
      if path !in results {
        paths := paths + [path];
      }
      results := results[path := r];
    }

    /** `analyze_all_diagrams`: every file analysed in turn. */
    method AnalyzeAll(files: seq<(string, Option<string>)>)
      requires Valid()
      modifies this
      ensures Valid()
      ensures (results, paths) == Replay(old(results), old(paths), Outcomes(files, threshold))
    {
      for i := 0 to |files|
        invariant Valid()
        invariant (results, paths) == Replay(old(results), old(paths), Outcomes(files[..i], threshold))
      {
        Seqs.PrefixSnoc(files, i);
        assert files[..i + 1][..i] == files[..i];
        OutcomesSnoc(files[..i], files[i], threshold);
        ReplaySnoc(old(results), old(paths), Outcomes(files[..i], threshold), Analyse(files[i].0, files[i].1, threshold));
        var _ := AnalyzeFile(files[i].0, files[i].1);
      }
      Seqs.PrefixAll(files);
    }

    /** `generate_report`: the type statistics are gathered in a loop over the results. */
    method GenerateReport(verbose: bool) returns (report: Report)
      requires Valid()
      ensures report == ReportOf(results, paths, threshold, verbose)
    {
      if |results| == 0 {
        return NoDiagrams;
      }
      var rows := Rows(results, paths);
      var stats := TypeStatistics(rows);
      var complex := Seqs.Filter(rows, RowComplex);
      var simple := Seqs.Filter(rows, RowSimple);
      report := Report(threshold, |results|, |complex|, |simple|, stats,
                       Sorted.SortDescBy(complex, RowElements),
                       if verbose then Sorted.SortDescBy(rows, RowElements) else []);
    }
  }

  /** The `type_stats` loop of `generate_report`. */
  method TypeStatistics(rows: seq<Row>) returns (stats: map<DiagramType, TypeStats>)
    ensures stats == StatsOf(rows)
  {
    stats := map[];
    for i := 0 to |rows|
      invariant stats == StatsOf(rows[..i])
    {
      Seqs.PrefixSnoc(rows, i);
      assert rows[..i + 1][..i] == rows[..i];
      stats := AddStats(stats, rows[i]);
    }
    Seqs.PrefixAll(rows);
  }

  // ------------------------------------------------------------------ report

  /** A line of the report's file tables: name, type, element count and whether it is complex. */
  datatype Row = Row(name: string, diagramType: DiagramType, elements: nat, isComplex: bool)

  function RowElements(r: Row): nat { r.elements }

  predicate RowComplex(r: Row) { r.isComplex }

  predicate RowSimple(r: Row) { !r.isComplex }

  predicate AnyRow(r: Row) { true }

  /** The row of the result stored under `p`; a path without one gives an empty row. */
  function RowOf(results: map<string, Outcome>, p: string): Row
  {
    if p in results && results[p].Analysed? then
      Row(Paths.Name(p), results[p].diagramType, results[p].elements, results[p].isComplex)
    else Row(Paths.Name(p), Unknown, 0, false)
  }

  /** The rows of the results, in insertion order. */
  function Rows(results: map<string, Outcome>, paths: seq<string>): (rows: seq<Row>)
    ensures |rows| == |paths|
    ensures forall k :: 0 <= k < |paths| ==> rows[k] == RowOf(results, paths[k])
  {
    if paths == [] then []
    else Rows(results, paths[..|paths| - 1]) + [RowOf(results, paths[|paths| - 1])]
  }

  /** Per diagram type: how many diagrams, their elements in total and the largest count. */
  datatype TypeStats = TypeStats(count: nat, totalElements: nat, maxElements: nat)

  const NoStats := TypeStats(0, 0, 0)

  /** One result added to the statistics of its type. */
  function AddStats(stats: map<DiagramType, TypeStats>, r: Row): map<DiagramType, TypeStats>
  {
    var s := if r.diagramType in stats then stats[r.diagramType] else NoStats;
    stats[r.diagramType := TypeStats(s.count + 1, s.totalElements + r.elements,
                                     if r.elements > s.maxElements then r.elements else s.maxElements)]
  }

  /** The statistics of `rows`, every result added in turn. */
  function StatsOf(rows: seq<Row>): map<DiagramType, TypeStats>
  {
    if rows == [] then map[]
    else AddStats(StatsOf(rows[..|rows| - 1]), rows[|rows| - 1])
  }

  /** How many rows are of type `t`. */
  function TypeCount(rows: seq<Row>, t: DiagramType): nat
  {
    if rows == [] then 0
    else TypeCount(rows[..|rows| - 1], t) + (if rows[|rows| - 1].diagramType == t then 1 else 0)
  }

  /** A row of type `t` makes the count of `t` positive. */
  lemma {:induction false} TypeCountPositive(rows: seq<Row>, k: nat)
    requires k < |rows|
    ensures TypeCount(rows, rows[k].diagramType) > 0
  {
    var init := rows[..|rows| - 1];
    if k < |init| {
      assert init[k] == rows[k];
      TypeCountPositive(init, k);
    }
  }

  /**
   * A type has statistics exactly when some row is of that type; they count
   * its rows, and its largest count is at least that of each of its rows.
   */
  lemma {:induction false} StatsCount(rows: seq<Row>, t: DiagramType)
    ensures t in StatsOf(rows) <==> TypeCount(rows, t) > 0
    ensures t in StatsOf(rows) ==> StatsOf(rows)[t].count == TypeCount(rows, t)
    ensures t in StatsOf(rows) ==> forall k :: 0 <= k < |rows| && rows[k].diagramType == t ==>
              rows[k].elements <= StatsOf(rows)[t].maxElements
  {
    if rows != [] {
      var init := rows[..|rows| - 1];
      var last := rows[|rows| - 1];
      StatsCount(init, t);
      assert StatsOf(rows) == AddStats(StatsOf(init), last);
      assert TypeCount(rows, t) == TypeCount(init, t) + (if last.diagramType == t then 1 else 0);
      if t in StatsOf(rows) {
        forall k | 0 <= k < |rows| && rows[k].diagramType == t
          ensures rows[k].elements <= StatsOf(rows)[t].maxElements
        {
          if k < |init| {
            assert init[k] == rows[k];
            TypeCountPositive(init, k);
          }
        }
      }
    }
  }

  /** `generate_report`, as the data it prints. */
  datatype Report =
    | NoDiagrams
    | Report(threshold: int, total: nat, complexCount: nat, simpleCount: nat,
             typeStats: map<DiagramType, TypeStats>, complexRows: seq<Row>, allRows: seq<Row>)

  /**
   * The report on the stored results: counts of complex and simple diagrams,
   * the statistics per type, the complex diagrams by descending element count
   * and, when verbose, every diagram in that order.
   */
  function ReportOf(results: map<string, Outcome>, paths: seq<string>, threshold: int, verbose: bool): Report
  {
    if |results| == 0 then NoDiagrams
    else
      var rows := Rows(results, paths);
      var complex := Seqs.Filter(rows, RowComplex);
      Report(threshold, |results|, |complex|, |Seqs.Filter(rows, RowSimple)|, StatsOf(rows),
             Sorted.SortDescBy(complex, RowElements),
             if verbose then Sorted.SortDescBy(rows, RowElements) else [])
  }

  /** A consistent results map has one key per path. */
  lemma ResultsSize(results: map<string, Outcome>, paths: seq<string>, threshold: int)
    requires Consistent(results, paths, threshold)
    ensures |results| == |paths|
  {
    assert results.Keys == Seqs.Elements(paths);
    Seqs.DistinctCard(paths);
  }

  /** Every row of consistent results is complex exactly when its count is above the threshold. */
  lemma RowsThreshold(results: map<string, Outcome>, paths: seq<string>, threshold: int)
    requires Consistent(results, paths, threshold)
    ensures forall r :: r in Rows(results, paths) ==> (r.isComplex <==> r.elements > threshold)
  {
    var rows := Rows(results, paths);
    forall r | r in rows ensures r.isComplex <==> r.elements > threshold {
      var k :| 0 <= k < |rows| && rows[k] == r;
      assert paths[k] in results;
    }
  }

  /** The complex and simple diagrams of the report share out all the results between them. */
  lemma ReportCounts(results: map<string, Outcome>, paths: seq<string>, threshold: int, verbose: bool)
    requires Consistent(results, paths, threshold) && |results| > 0
    ensures ReportOf(results, paths, threshold, verbose).Report?
    ensures ReportOf(results, paths, threshold, verbose).total == |paths|
    ensures ReportOf(results, paths, threshold, verbose).complexCount
            + ReportOf(results, paths, threshold, verbose).simpleCount == |paths|
  {
    var rows := Rows(results, paths);
    ResultsSize(results, paths, threshold);
    Seqs.FilterSplit(rows, AnyRow, RowComplex, RowSimple);
    Seqs.FilterAll(rows, AnyRow);
  }

  /**
   * The report lists as complex exactly the rows above the threshold, each as
   * often as it is stored, by descending element count.
   */
  lemma ReportComplexRows(results: map<string, Outcome>, paths: seq<string>, threshold: int, verbose: bool)
    requires Consistent(results, paths, threshold) && |results| > 0
    ensures forall r :: r in ReportOf(results, paths, threshold, verbose).complexRows
                        <==> r in Rows(results, paths) && r.elements > threshold
    ensures Sorted.DescendingBy(ReportOf(results, paths, threshold, verbose).complexRows, RowElements)
    ensures multiset(ReportOf(results, paths, threshold, verbose).complexRows)
            == multiset(Seqs.Filter(Rows(results, paths), RowComplex))
    ensures |ReportOf(results, paths, threshold, verbose).complexRows| == ReportOf(results, paths, threshold, verbose).complexCount
  {
    var rows := Rows(results, paths);
    var complex := Seqs.Filter(rows, RowComplex);
    var sorted := Sorted.SortDescBy(complex, RowElements);
    assert ReportOf(results, paths, threshold, verbose).complexRows == sorted;
    RowsThreshold(results, paths, threshold);
    forall r ensures r in sorted <==> r in rows && r.elements > threshold {
      Sorted.SortDescByMembers(complex, RowElements, r);
    }
    Sorted.SortDescByMembers(complex, RowElements, Row("", Unknown, 0, false));
  }

  /** `main`'s exit status: 1 without the directory, else 1 exactly when a stored result is complex. */
  function ExitCode(dirExists: bool, results: map<string, Outcome>): int
  {
    if !dirExists then 1
    else if exists p :: p in results && results[p].Analysed? && results[p].isComplex then 1
    else 0
  }

  /** A diagram that was analysed and found complex. */
  predicate ComplexOutcome(o: Outcome) { o.Analysed? && o.isComplex }

  /** A file of the listing whose diagram is complex. */
  predicate ComplexFile(f: (string, Option<string>), threshold: int)
  {
    ComplexOutcome(Analyse(f.0, f.1, threshold))
  }

  function ComplexAt(threshold: int): ((string, Option<string>)) -> bool
  {
    f => ComplexFile(f, threshold)
  }

  function PathKey(f: (string, Option<string>)): string { f.0 }

  /** Sorting a listing without repeated paths keeps the paths distinct. */
  lemma PermutedDistinctPaths(xs: seq<(string, Option<string>)>, ys: seq<(string, Option<string>)>)
    requires DistinctPaths(xs) && multiset(xs) == multiset(ys)
    ensures DistinctPaths(ys)
  {
    assert Seqs.Distinct(xs);
    Seqs.DistinctPermuted(xs, ys);
    forall i, j | 0 <= i < j < |ys| ensures ys[i].0 != ys[j].0 {
      assert ys[i] in multiset(xs) && ys[j] in multiset(xs);
      var a :| 0 <= a < |xs| && xs[a] == ys[i];
      var b :| 0 <= b < |xs| && xs[b] == ys[j];
      if a < b { } else if b < a { }
    }
  }

  /** Over stored outcomes the exit status is 1 exactly when one of them is complex. */
  lemma ExitOfOutcomes(os: seq<Outcome>, threshold: int)
    requires Storable(os, threshold)
    ensures ExitCode(true, Replay(map[], [], os).0) == 1 <==> exists k :: 0 <= k < |os| && ComplexOutcome(os[k])
  {
    ReplayStores(os, threshold);
    var m := Replay(map[], [], os).0;
    if exists k :: 0 <= k < |os| && ComplexOutcome(os[k]) {
      var k :| 0 <= k < |os| && ComplexOutcome(os[k]);
      assert m[os[k].filepath] == os[k];
    }
    if exists p :: p in m && m[p].Analysed? && m[p].isComplex {
      var p :| p in m && m[p].Analysed? && m[p].isComplex;
      var k :| StoredAt(os, k, p);
      assert ComplexOutcome(os[k]);
    }
  }

  /**
   * Over the results stored from distinct files, the exit status is 1 exactly
   * when one of those files holds a complex diagram.
   */
  lemma ExitIff(files: seq<(string, Option<string>)>, threshold: int)
    requires DistinctPaths(files)
    ensures ExitCode(true, Replay(map[], [], Outcomes(files, threshold)).0) == 1
            <==> exists k :: 0 <= k < |files| && ComplexFile(files[k], threshold)
  {
    var os := Outcomes(files, threshold);
    OutcomesStorable(files, threshold);
    ExitOfOutcomes(os, threshold);
    assert forall k :: 0 <= k < |files| ==> (ComplexFile(files[k], threshold) <==> ComplexOutcome(os[k]));
  }

  /** The exit status over a sorted copy of the listing is the one over the listing. */
  lemma ExitOfSorted(files: seq<(string, Option<string>)>, sortedFiles: seq<(string, Option<string>)>, threshold: int)
    requires DistinctPaths(sortedFiles) && multiset(files) == multiset(sortedFiles)
    ensures ExitCode(true, Replay(map[], [], Outcomes(sortedFiles, threshold)).0) == 1
            <==> exists k :: 0 <= k < |files| && ComplexFile(files[k], threshold)
  {
    ExitIff(sortedFiles, threshold);
    Seqs.SomePermuted(files, sortedFiles, ComplexAt(threshold));
  }

  /** Consistent results count a complex diagram exactly when the exit status is 1. */
  lemma ComplexCountPositive(results: map<string, Outcome>, paths: seq<string>, threshold: int)
    requires Consistent(results, paths, threshold)
    ensures |Seqs.Filter(Rows(results, paths), RowComplex)| > 0 <==> ExitCode(true, results) == 1
  {
    var rows := Rows(results, paths);
    if exists p :: p in results && results[p].Analysed? && results[p].isComplex {
      var p :| p in results && results[p].Analysed? && results[p].isComplex;
      var k :| 0 <= k < |paths| && paths[k] == p;
      assert RowComplex(rows[k]);
      assert rows[k] in Seqs.Filter(rows, RowComplex);
    }
    if ExitCode(true, results) == 0 {
      forall k | 0 <= k < |rows| ensures !RowComplex(rows[k]) {
        assert paths[k] in results;
      }
      Seqs.FilterNone(rows, RowComplex);
    }
  }

  /**
   * `main`: without the directory the status is 1 and there is no report;
   * otherwise the sorted listing is analysed, reported on, and the status is 1
   * exactly when some file holds a complex diagram.
   */
  method Run(dirExists: bool, files: seq<(string, Option<string>)>, threshold: int, verbose: bool)
    returns (code: int, report: Option<Report>)
    requires DistinctPaths(files)
    ensures !dirExists ==> code == 1 && report.None?
    ensures dirExists ==> report.Some?
    ensures dirExists ==> (code == 1 <==> exists k :: 0 <= k < |files| && ComplexFile(files[k], threshold))
    ensures code == 0 || code == 1
  {
    if !dirExists {
      return 1, None;
    }
    var analyzer := new Analyzer(threshold);
    var sortedFiles := Lex.SortBy(files, PathKey);
    PermutedDistinctPaths(files, sortedFiles);
    analyzer.AnalyzeAll(sortedFiles);
    var r := analyzer.GenerateReport(verbose);
    report := Some(r);
    var complexCount := ComplexResults(analyzer.results, analyzer.paths);
    ComplexCountPositive(analyzer.results, analyzer.paths, threshold);
    ExitOfSorted(files, sortedFiles, threshold);
    code := if complexCount > 0 then 1 else 0;
  }

  /** `sum(1 for r in results.values() if r['is_complex'])`, and whether it is positive. */
  method ComplexResults(results: map<string, Outcome>, paths: seq<string>) returns (n: nat)
    ensures n == |Seqs.Filter(Rows(results, paths), RowComplex)|
  {
    n := Seqs.Count(Rows(results, paths), RowComplex);
  }
}
