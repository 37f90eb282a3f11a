/**
 * The content side of the presentation generator: the word limit applied to
 * slide text, the kind of a Mermaid diagram, the census of chapters with and
 * without diagrams, the metadata shown beside a diagram and the title, first
 * diagram and key points of a chapter slide.
 */
module Presentation {
  import opened Wrappers
  import opened Str
  import Seqs
  import Paths
  import Whitepapers

  // ---------------------------------------------------------- word limit

  /** `limit_words`: text of at most `max` words unchanged, otherwise its first `max` words and "...". */
  function LimitWords(text: string, max: nat): string
  {
    if text == [] then text
    else
      var words := Words(text);
      if |words| <= max then text else Join(words[..max], " ") + "..."
  }

  /** Text of at most `max` words, the empty text among them, comes back exactly as it was. */
  lemma LimitWordsShort(text: string, max: nat)
    requires |Words(text)| <= max
    ensures LimitWords(text, max) == text
  {
  }

  /** Appending to a joined list appends to its last element. */
  lemma {:induction false} JoinExtendLast(ws: seq<string>, sep: string, tail: string)
    requires |ws| >= 1
    ensures Join(ws, sep) + tail == Join(ws[..|ws| - 1] + [ws[|ws| - 1] + tail], sep)
    decreases |ws|
  {
    var v := ws[..|ws| - 1] + [ws[|ws| - 1] + tail];
    if |ws| >= 2 {
      var u := ws[1..];
      JoinExtendLast(u, sep, tail);
      assert v[1..] == u[..|u| - 1] + [u[|u| - 1] + tail];
      assert v[0] == ws[0];
      assert Join(ws, sep) + tail == ws[0] + sep + (Join(u, sep) + tail);
    } else {
      assert v == [ws[0] + tail];
    }
  }

  /** "..." is a word of its own. */
  lemma DotsWord()
    ensures NoSpace("...") && Words("...") == ["..."]
  {
    assert "..."[0] == '.' && "..."[1] == '.' && "..."[2] == '.';
    WordsOfSingle("...");
  }

  /** Joining the first `max` words and appending "..." gives those words, the last one with "..." on it. */
  lemma ExtendedWords(ws: seq<string>, max: nat)
    requires AllWords(ws) && 0 < max <= |ws|
    ensures Words(Join(ws[..max], " ") + "...") == ws[..max - 1] + [ws[max - 1] + "..."]
  {
    var kept := ws[..max];
    JoinExtendLast(kept, " ", "...");
    var v := kept[..max - 1] + [kept[max - 1] + "..."];
    assert v == ws[..max - 1] + [ws[max - 1] + "..."];
    var last := ws[max - 1] + "...";
    DotsWord();
    assert NoSpace(last) by {
      forall i | 0 <= i < |last| ensures !IsSpace(last[i]) {
        if i >= |ws[max - 1]| { assert last[i] == "..."[i - |ws[max - 1]|]; }
      }
    }
    assert AllWords(v) by {
      forall k | 0 <= k < |v| ensures v[k] != [] && NoSpace(v[k]) {
        if k < max - 1 { assert v[k] == ws[k]; }
      }
    }
    WordsOfJoin(v);
  }

  /** Longer text keeps its first `max` words, the last of them followed by "...". */
  lemma LimitWordsLong(text: string, max: nat)
    requires |Words(text)| > max
    ensures var ws := Words(text);
      Words(LimitWords(text, max)) == if max == 0 then ["..."] else ws[..max - 1] + [ws[max - 1] + "..."]
  {
    var ws := Words(text);
    assert LimitWords(text, max) == Join(ws[..max], " ") + "..." by {
      assert text != [];
    }
    DotsWord();
    if max > 0 {
      ExtendedWords(ws, max);
    } else {
      assert Join(ws[..max], " ") + "..." == "...";
    }
  }

  /** With a limit of at least one word, the result never has more words than the limit. */
  lemma LimitWordsAtMost(text: string, max: nat)
    requires max >= 1
    ensures |Words(LimitWords(text, max))| <= max
  {
    if |Words(text)| > max {
      LimitWordsLong(text, max);
    }
  }

  /** Limiting twice is limiting once. */
  lemma LimitWordsIdempotent(text: string, max: nat)
    ensures LimitWords(LimitWords(text, max), max) == LimitWords(text, max)
  {
    if |Words(text)| > max {
      LimitWordsLong(text, max);
      if max == 0 {
        WordsOfSingle("...");
      }
    }
  }

  // ------------------------------------------------------- diagram types

  datatype DiagramType =
    | Flowchart | Sequence | ClassDiagram | State | EntityRelationship | UserJourney | Gantt | Pie
    | Quadrant | Requirement | GitGraph | Mindmap | Timeline | Sankey | XyChart | Other

  /** The type one line announces: its trimmed, lowercased text names it. */
  function LineType(line: string): (r: Option<DiagramType>)
    ensures r != Some(Other)
  {
    KeywordType(Lower(Strip(line)))
  }

  /** The type named by the first known prefix of a trimmed, lowercased line, tested in order. */
  function KeywordType(l: string): (r: Option<DiagramType>)
    ensures r != Some(Other)
  {
    if StartsWith(l, "graph ") || StartsWith(l, "flowchart ") then Some(Flowchart)
    else if StartsWith(l, "sequencediagram") then Some(Sequence)
    else if StartsWith(l, "classdiagram") then Some(ClassDiagram)
    else if StartsWith(l, "statediagram") then Some(State)
    else if StartsWith(l, "erdiagram") then Some(EntityRelationship)
    else if StartsWith(l, "journey") then Some(UserJourney)
    else if StartsWith(l, "gantt") then Some(Gantt)
    else if StartsWith(l, "pie") then Some(Pie)
    else if StartsWith(l, "quadrantchart") then Some(Quadrant)
    else if StartsWith(l, "requirementdiagram") then Some(Requirement)
    else if StartsWith(l, "gitgraph") then Some(GitGraph)
    else if StartsWith(l, "mindmap") then Some(Mindmap)
    else if StartsWith(l, "timeline") then Some(Timeline)
    else if StartsWith(l, "sankey") then Some(Sankey)
    else if StartsWith(l, "xychart") then Some(XyChart)
    else None
  }

  predicate AnnouncesType(line: string) { LineType(line).Some? }

  /** The type announced by the first of `lines` that announces one, `Other` when none does. */
  function FirstType(lines: seq<string>): (r: DiagramType)
    ensures r == Other <==> forall k :: 0 <= k < |lines| ==> LineType(lines[k]).None?
  {
    var k := Seqs.FirstIndex(lines, AnnouncesType);
    if k < |lines| then LineType(lines[k]).value else Other
  }

  /** The lines that decide the type of a diagram: the first three of its trimmed text. */
  function HeadLines(content: string): (r: seq<string>)
    ensures |r| <= 3
  {
    Seqs.Take(Split(Strip(content), '\n'), 3)
  }

  /** The type of a Mermaid source: the first of its first three lines that announces one decides. */
  function DiagramTypeOf(content: string): DiagramType
  {
    FirstType(HeadLines(content))
  }

  /** A line announces a flowchart exactly when it starts with `graph ` or `flowchart `, the space included. */
  lemma FlowchartIff(l: string)
    ensures KeywordType(l) == Some(Flowchart) <==> StartsWith(l, "graph ") || StartsWith(l, "flowchart ")
  {
  }

  /** A readable Mermaid file: its name and its content, `None` when it cannot be read. */
  datatype MermaidFile = MermaidFile(path: string, content: Option<string>)

  predicate IsOfType(t: DiagramType, f: MermaidFile)
  {
    f.content.Some? && DiagramTypeOf(f.content.value) == t
  }

  function PathOf(f: MermaidFile): string { f.path }

  /** The files of one type, in the order the files are given. */
  function FilesOfType(files: seq<MermaidFile>, t: DiagramType): seq<string>
  {
    Seqs.Map(Seqs.Filter(files, f => IsOfType(t, f)), PathOf)
  }

  lemma FilesOfTypeSnoc(files: seq<MermaidFile>, f: MermaidFile, t: DiagramType)
    ensures FilesOfType(files + [f], t) == FilesOfType(files, t) + (if IsOfType(t, f) then [f.path] else [])
  {
    Seqs.FilterSnoc(files, f, g => IsOfType(t, g));
    var kept := Seqs.Filter(files, g => IsOfType(t, g));
    if IsOfType(t, f) {
      Seqs.MapSnoc(kept, f, PathOf);
    } else {
      assert Seqs.Filter(files + [f], g => IsOfType(t, g)) == kept;
    }
  }

  /** Every type is one of the sixteen the analysis lists. */
  lemma EveryTypeListed(m: map<DiagramType, seq<string>>, t: DiagramType)
    requires Flowchart in m && Sequence in m && ClassDiagram in m && State in m && EntityRelationship in m
    requires UserJourney in m && Gantt in m && Pie in m && Quadrant in m && Requirement in m && GitGraph in m
    requires Mindmap in m && Timeline in m && Sankey in m && XyChart in m && Other in m
    ensures t in m
  {
  }

  /** Every type has a list, and it holds the paths of the files of that type. */
  predicate Filed(analysis: map<DiagramType, seq<string>>, files: seq<MermaidFile>)
  {
    forall t :: t in analysis && analysis[t] == FilesOfType(files, t)
  }

  /**
   * `analyze_mermaid_diagram_types`: every readable file filed under its
   * type, with a list for each of the sixteen types.  A missing images
   * directory is an empty list of files.
   */
  method AnalyzeMermaidDiagramTypes(files: seq<MermaidFile>) returns (analysis: map<DiagramType, seq<string>>)
    ensures Filed(analysis, files)
  {
    analysis := NoFilesFiled();
    assert files[..0] == [];
    var i := 0;
    while i < |files|
      invariant i <= |files|
      invariant Filed(analysis, files[..i])
    {
      var next := FileUnderType(analysis, files[i]);
      AnalysisStep(analysis, files[..i], files[i], next);
      Seqs.PrefixSnoc(files, i);
      analysis := next;
      i := i + 1;
    }
    Seqs.PrefixAll(files);
  }

  /** The sixteen empty lists the analysis starts from. */
  function NoFilesFiled(): (m: map<DiagramType, seq<string>>)
    ensures Filed(m, [])
  {
    var m := map[Flowchart := [], Sequence := [], ClassDiagram := [], State := [], EntityRelationship := [],
                 UserJourney := [], Gantt := [], Pie := [], Quadrant := [], Requirement := [], GitGraph := [],
                 Mindmap := [], Timeline := [], Sankey := [], XyChart := [], Other := []];
    assert forall t :: t in m by {
      forall t ensures t in m {
        EveryTypeListed(m, t);
      }
    }
    m
  }

  /** The loop body: a readable file is appended to the list of its type. */
  method FileUnderType(analysis: map<DiagramType, seq<string>>, f: MermaidFile) returns (next: map<DiagramType, seq<string>>)
    requires forall t :: t in analysis
    ensures f.content.Some? ==> var t := DiagramTypeOf(f.content.value); next == analysis[t := analysis[t] + [f.path]]
    ensures f.content.None? ==> next == analysis
  {
    next := analysis;
    if f.content.Some? {
      var t := DiagramTypeOf(f.content.value);
      next := analysis[t := analysis[t] + [f.path]];
    }
  }

  /** Filing one more file under its type keeps every list equal to the files of its type. */
  lemma AnalysisStep(analysis: map<DiagramType, seq<string>>, files: seq<MermaidFile>, f: MermaidFile,
                     next: map<DiagramType, seq<string>>)
    requires Filed(analysis, files)
    requires f.content.Some? ==> var t := DiagramTypeOf(f.content.value); next == analysis[t := analysis[t] + [f.path]]
    requires f.content.None? ==> next == analysis
    ensures Filed(next, files + [f])
  {
    forall t ensures t in next && next[t] == FilesOfType(files + [f], t) {
      FilesOfTypeSnoc(files, f, t);
    }
  }

  /** The types a comprehensive presentation should show, in the order they are reported. */
  const EssentialTypes: seq<DiagramType> :=
    [Flowchart, Sequence, ClassDiagram, EntityRelationship, UserJourney, Gantt, Pie, Quadrant, Mindmap]

  /** A type has at least one file in the analysis (`analysis.get(type)` is truthy). */
  predicate Present(analysis: map<DiagramType, seq<string>>, t: DiagramType)
  {
    t in analysis && analysis[t] != []
  }

  /** The types of `ts` without files, in order. */
  function MissingOf(analysis: map<DiagramType, seq<string>>, ts: seq<DiagramType>): seq<DiagramType>
  {
    Seqs.Filter(ts, t => !Present(analysis, t))
  }

  /** The types of `ts` with files, in order. */
  function AvailableOf(analysis: map<DiagramType, seq<string>>, ts: seq<DiagramType>): seq<DiagramType>
  {
    Seqs.Filter(ts, t => Present(analysis, t))
  }

  function Missing(analysis: map<DiagramType, seq<string>>): seq<DiagramType>
  {
    MissingOf(analysis, EssentialTypes)
  }

  function Available(analysis: map<DiagramType, seq<string>>): seq<DiagramType>
  {
    AvailableOf(analysis, EssentialTypes)
  }

  /** One more type lands in exactly one of the two lists, at its end. */
  lemma MissingSnoc(analysis: map<DiagramType, seq<string>>, ts: seq<DiagramType>, t: DiagramType)
    ensures MissingOf(analysis, ts + [t]) == MissingOf(analysis, ts) + (if Present(analysis, t) then [] else [t])
    ensures AvailableOf(analysis, ts + [t]) == AvailableOf(analysis, ts) + (if Present(analysis, t) then [t] else [])
  {
    Seqs.FilterSnoc(ts, t, u => !Present(analysis, u));
    Seqs.FilterSnoc(ts, t, u => Present(analysis, u));
  }

  /** `get_missing_diagram_types`: the essential types without files, and those with, each in essential order. */
  method GetMissingDiagramTypes(analysis: map<DiagramType, seq<string>>) returns (missing: seq<DiagramType>, available: seq<DiagramType>)
    ensures missing == Missing(analysis) && available == Available(analysis)
  {
    missing, available := SplitByPresence(analysis, EssentialTypes);
  }

  /** The loop of `get_missing_diagram_types` over a list of types. */
  method SplitByPresence(analysis: map<DiagramType, seq<string>>, ts: seq<DiagramType>)
    returns (missing: seq<DiagramType>, available: seq<DiagramType>)
    ensures missing == MissingOf(analysis, ts) && available == AvailableOf(analysis, ts)
  {
    missing, available := [], [];
    var i := 0;
    while i < |ts|
      invariant i <= |ts|
      invariant missing == MissingOf(analysis, ts[..i])
      invariant available == AvailableOf(analysis, ts[..i])
    {
      var t := ts[i];
      Seqs.PrefixSnoc(ts, i);
      MissingSnoc(analysis, ts[..i], t);
      if !(t in analysis && analysis[t] != []) {
        missing := missing + [t];
      } else {
        available := available + [t];
      }
      i := i + 1;
    }
    Seqs.PrefixAll(ts);
  }

  /** Each essential type is reported exactly once, as missing or as available, and nothing else is reported. */
  lemma MissingPartition(analysis: map<DiagramType, seq<string>>)
    ensures forall t :: t in EssentialTypes ==> (t in Missing(analysis) <==> t !in Available(analysis))
    ensures forall t :: t in Missing(analysis) + Available(analysis) ==> t in EssentialTypes
    ensures |Missing(analysis)| + |Available(analysis)| == |EssentialTypes|
  {
    Seqs.FilterSplit(EssentialTypes, t => true, t => !Present(analysis, t), t => Present(analysis, t));
    Seqs.FilterAll(EssentialTypes, t => true);
  }

  /** A type has no files exactly when no readable file is of that type. */
  lemma FilesOfTypeEmpty(files: seq<MermaidFile>, t: DiagramType)
    ensures FilesOfType(files, t) == [] <==> forall f :: f in files ==> !IsOfType(t, f)
  {
    var kept := Seqs.Filter(files, f => IsOfType(t, f));
    assert |FilesOfType(files, t)| == |kept|;
    if kept != [] {
      assert kept[0] in kept;
    }
  }

  /** On the analysis of a set of files, an essential type is missing exactly when no readable file has it. */
  lemma MissingIffNoFile(files: seq<MermaidFile>, analysis: map<DiagramType, seq<string>>, t: DiagramType)
    requires t in analysis && analysis[t] == FilesOfType(files, t)
    ensures t in Missing(analysis) <==> t in EssentialTypes && forall f :: f in files ==> !IsOfType(t, f)
  {
    FilesOfTypeEmpty(files, t);
    assert t in Missing(analysis) <==> t in EssentialTypes && !Present(analysis, t);
  }

  // ----------------------------------------------------- chapter census

  /** The files of the docs directory that are not chapters. */
  const SkippedChapters: seq<string> := ["README.md", "arkitektur_som_kod.md", "BOOK_COVER_DESIGN.md"]

  /** A markdown file of the docs directory by name, with its text when it can be read. */
  datatype ChapterFile = ChapterFile(name: string, content: Option<string>)

  /** The image target of a line that starts an image and mentions `images/`. */
  function DiagramRef(line: string): Option<string>
  {
    if StartsWith(line, "![") && Contains(line, "images/") then Whitepapers.ImageTarget(line) else None
  }

  /** The diagram references of a chapter, one per diagram line, in order. */
  function DiagramRefs(content: string): seq<string>
  {
    Seqs.FilterMap(Split(content, '\n'), DiagramRef)
  }

  predicate Counted(c: ChapterFile) { c.name !in SkippedChapters }

  predicate HasDiagram(c: ChapterFile) { c.content.Some? && DiagramRefs(c.content.value) != [] }

  predicate IsWith(c: ChapterFile) { Counted(c) && HasDiagram(c) }

  predicate IsWithout(c: ChapterFile) { Counted(c) && !HasDiagram(c) }

  /** The diagram references of a readable chapter. */
  function Refs(c: ChapterFile): seq<string>
  {
    match c.content
    case None => []
    case Some(text) => DiagramRefs(text)
  }

  function WithEntry(c: ChapterFile): (string, seq<string>) { (c.name, Refs(c)) }

  function NameOf(c: ChapterFile): string { c.name }

  datatype DiagramCensus = DiagramCensus(
    withDiagrams: seq<(string, seq<string>)>,
    withoutDiagrams: seq<string>,
    totalChapters: nat,
    withDiagramCount: nat)

  /** Chapters with their names and references, chapters without, all counted chapters, and how many have one. */
  function Census(chapters: seq<ChapterFile>): DiagramCensus
  {
    var with := Seqs.Filter(chapters, IsWith);
    DiagramCensus(
      Seqs.Map(with, WithEntry),
      Seqs.Map(Seqs.Filter(chapters, IsWithout), NameOf),
      |Seqs.Filter(chapters, Counted)|,
      |with|)
  }

  /** The census after one more chapter file. */
  function Tally(cs: DiagramCensus, c: ChapterFile): DiagramCensus
  {
    DiagramCensus(
      cs.withDiagrams + (if IsWith(c) then [WithEntry(c)] else []),
      cs.withoutDiagrams + (if IsWithout(c) then [c.name] else []),
      cs.totalChapters + (if Counted(c) then 1 else 0),
      cs.withDiagramCount + (if IsWith(c) then 1 else 0))
  }

  /**
   * `validate_chapter_diagrams` over the markdown files of the docs
   * directory in sorted order; no docs directory gives the empty result.
   */
  method ValidateChapterDiagrams(docsExists: bool, chapters: seq<ChapterFile>) returns (r: Option<DiagramCensus>)
    ensures r == if docsExists then Some(Census(chapters)) else None
  {
    if !docsExists {
      return None;
    }
    var census := DiagramCensus([], [], 0, 0);
    var i := 0;
    while i < |chapters|
      invariant i <= |chapters|
      invariant census == Census(chapters[..i])
    {
      var next := TallyChapter(census, chapters[i]);
      CensusStep(chapters[..i], chapters[i]);
      Seqs.PrefixSnoc(chapters, i);
      census := next;
      i := i + 1;
    }
    Seqs.PrefixAll(chapters);
    return Some(census);
  }

  /** The body of the chapter loop: skipped files are ignored, the others listed by whether they show a diagram. */
  method TallyChapter(cs: DiagramCensus, c: ChapterFile) returns (next: DiagramCensus)
    ensures next == Tally(cs, c)
  {
    var with, without, total, count := cs.withDiagrams, cs.withoutDiagrams, cs.totalChapters, cs.withDiagramCount;
    if c.name !in SkippedChapters {
      total := total + 1;
      if c.content.Some? {
        var refs := DiagramRefs(c.content.value);
        if refs != [] {
          with := with + [(c.name, refs)];
          count := count + 1;
        } else {
          without := without + [c.name];
        }
      } else {
        without := without + [c.name];
      }
    }
    return DiagramCensus(with, without, total, count);
  }

  lemma CensusStep(chapters: seq<ChapterFile>, c: ChapterFile)
    ensures Census(chapters + [c]) == Tally(Census(chapters), c)
  {
    Seqs.FilterSnoc(chapters, c, Counted);
    WithStep(chapters, c);
    WithoutStep(chapters, c);
  }

  lemma WithStep(chapters: seq<ChapterFile>, c: ChapterFile)
    ensures Seqs.Map(Seqs.Filter(chapters + [c], IsWith), WithEntry)
         == Seqs.Map(Seqs.Filter(chapters, IsWith), WithEntry) + (if IsWith(c) then [WithEntry(c)] else [])
    ensures |Seqs.Filter(chapters + [c], IsWith)| == |Seqs.Filter(chapters, IsWith)| + (if IsWith(c) then 1 else 0)
  {
    Seqs.FilterSnoc(chapters, c, IsWith);
    var with := Seqs.Filter(chapters, IsWith);
    if IsWith(c) {
      Seqs.MapSnoc(with, c, WithEntry);
    } else {
      assert Seqs.Filter(chapters + [c], IsWith) == with;
    }
  }

  lemma WithoutStep(chapters: seq<ChapterFile>, c: ChapterFile)
    ensures Seqs.Map(Seqs.Filter(chapters + [c], IsWithout), NameOf)
         == Seqs.Map(Seqs.Filter(chapters, IsWithout), NameOf) + (if IsWithout(c) then [c.name] else [])
  {
    Seqs.FilterSnoc(chapters, c, IsWithout);
    var out := Seqs.Filter(chapters, IsWithout);
    if IsWithout(c) {
      Seqs.MapSnoc(out, c, NameOf);
    } else {
      assert Seqs.Filter(chapters + [c], IsWithout) == out;
    }
  }

  /**
   * Every counted chapter is listed once, with or without diagrams: the
   * total is the sum of the two lists and the count is the first list's length.
   */
  lemma CensusAccounts(chapters: seq<ChapterFile>)
    ensures var r := Census(chapters);
      r.totalChapters == |r.withDiagrams| + |r.withoutDiagrams| && r.withDiagramCount == |r.withDiagrams|
      && r.totalChapters == |chapters| - |Seqs.Filter(chapters, c => !Counted(c))|
  {
    Seqs.FilterSplit(chapters, Counted, IsWith, IsWithout);
    Seqs.FilterSplit(chapters, c => true, Counted, c => !Counted(c));
    Seqs.FilterAll(chapters, c => true);
  }

  /** A chapter is listed without diagrams exactly when it is counted and unreadable or without a diagram line. */
  lemma CensusWithout(chapters: seq<ChapterFile>, c: ChapterFile)
    requires c in chapters
    ensures c.name in Census(chapters).withoutDiagrams <== IsWithout(c)
    ensures IsWith(c) ==> WithEntry(c) in Census(chapters).withDiagrams
  {
    var out := Seqs.Filter(chapters, IsWithout);
    if IsWithout(c) {
      Seqs.MapMembers(out, NameOf, c.name);
    }
    var with := Seqs.Filter(chapters, IsWith);
    if IsWith(c) {
      Seqs.MapMembers(with, WithEntry, WithEntry(c));
    }
  }

  // --------------------------------------------------- diagram metadata

  /** What is shown beside a diagram. */
  datatype DiagramInfo = DiagramInfo(source: Option<string>, kind: string, purpose: Option<string>, explanation: Option<string>)

  /** The kind a diagram has before, or without, its source being read. */
  const UnknownKind := "unknown"

  predicate NonBlank(l: string) { Strip(l) != "" }

  function LowerStripped(l: string): string { Lower(Strip(l)) }

  /** The non-blank lines of a trimmed source, each trimmed and lowercased. */
  function KindLines(mmd: string): seq<string>
  {
    Seqs.Map(Seqs.Filter(Split(Strip(mmd), '\n'), NonBlank), LowerStripped)
  }

  /** The kinds of source a diagram can be recognised as, the architecture diagram being the default. */
  datatype MmdKind =
    | FlowKind | SequenceKind | ClassKind | ErKind | JourneyKind | GanttKind | PieKind | QuadrantKind | MindmapKind
    | ArchitectureKind

  /** The Swedish name a kind is shown with. */
  function KindName(k: MmdKind): string
  {
    match k
    case FlowKind => "Flödesschema"
    case SequenceKind => "Sekvensdiagram"
    case ClassKind => "Klassdiagram"
    case ErKind => "ER-diagram"
    case JourneyKind => "Användarresa"
    case GanttKind => "Gantt-schema"
    case PieKind => "Cirkeldiagram"
    case QuadrantKind => "Kvadrantdiagram"
    case MindmapKind => "Mindmap"
    case ArchitectureKind => "Arkitekturdiagram"
  }

  /** The Swedish purpose a kind is described with. */
  function KindPurpose(k: MmdKind): string
  {
    match k
    case FlowKind => "Visualiserar processflöde och systemarbetsflöde"
    case SequenceKind => "Visar interaktionssekvenser och meddelandeflöden"
    case ClassKind => "Beskriver objektrelationer och systemstruktur"
    case ErKind => "Visualiserar datamodellrelationer och entiteter"
    case JourneyKind => "Kartlägger användarupplevelse och kontaktpunkter"
    case GanttKind => "Presenterar projekttidslinjer och schemaläggning"
    case PieKind => "Visar fördelning och procentuella uppdelningar"
    case QuadrantKind => "Illustrerar beslutsmatriser och positionering"
    case MindmapKind => "Strukturerar konceptuella relationer och kunskapskartor"
    case ArchitectureKind => "Visualiserar systemarkitektur och komponenter"
  }

  /** No kind is shown as `unknown`, and distinct kinds are shown under distinct names. */
  lemma {:induction false} KindNamesDistinct(k: MmdKind, j: MmdKind)
    ensures KindName(k) != UnknownKind
    ensures KindName(k) == KindName(j) ==> k == j
  {
    assert |KindName(k)| != 7 || KindName(k)[0] == 'M';
    if KindName(k) == KindName(j) {
      assert |KindName(k)| == |KindName(j)|;
      assert KindName(k)[0] == KindName(j)[0];
    }
  }

  /** The kind a line of a source names, tested prefix by prefix in order. */
  function LineKind(l: string): Option<MmdKind>
  {
    if StartsWith(l, "graph ") || StartsWith(l, "flowchart ") then Some(FlowKind)
    else if StartsWith(l, "sequencediagram") then Some(SequenceKind)
    else if StartsWith(l, "classdiagram") then Some(ClassKind)
    else if StartsWith(l, "erdiagram") then Some(ErKind)
    else if StartsWith(l, "journey") then Some(JourneyKind)
    else if StartsWith(l, "gantt") then Some(GanttKind)
    else if StartsWith(l, "pie") then Some(PieKind)
    else if StartsWith(l, "quadrantchart") then Some(QuadrantKind)
    else if StartsWith(l, "mindmap") then Some(MindmapKind)
    else None
  }

  /** The kind named by the first line that names one, the architecture diagram when there is none. */
  function KindOf(lines: seq<string>): (r: MmdKind)
    ensures (forall k :: 0 <= k < |lines| ==> LineKind(lines[k]).None?) <==> r == ArchitectureKind
    ensures r != ArchitectureKind ==> exists k :: 0 <= k < |lines| && LineKind(lines[k]) == Some(r)
  {
    var k := Seqs.FirstIndex(lines, l => LineKind(l).Some?);
    if k < |lines| then LineKind(lines[k]).value else ArchitectureKind
  }

  /** The kind loop of `extract_diagram_metadata`: stop at the first line with a known prefix. */
  method DetectKind(lines: seq<string>) returns (kind: MmdKind)
    ensures kind == KindOf(lines)
  {
    var i := 0;
    while i < |lines|
      invariant i <= |lines|
      invariant forall j :: 0 <= j < i ==> LineKind(lines[j]).None?
    {
      var found := LineKind(lines[i]);
      if found.Some? {
        assert Seqs.FirstIndex(lines, l => LineKind(l).Some?) == i;
        return found.value;
      }
      i := i + 1;
    }
    return ArchitectureKind;
  }

  /** The file name of a path: everything after its last `/`. */
  function Basename(p: string): string
  {
    p[Paths.LastIndexOf(p, '/') + 1..]
  }

  function MmdName(png: string): string { ReplaceAll(png, ".png", ".mmd") }

  /** A line that can explain a diagram: trimmed, not empty, not a heading and not an image. */
  predicate Describes(l: string) { l != "" && !StartsWith(l, "#") && !StartsWith(l, "![") }

  /** The explanation found around line `i` when it references the diagram: the next line first, then the one before. */
  function ExplanationAt(lines: seq<string>, stem: string, i: nat): (r: Option<string>)
    requires i < |lines|
    ensures r.Some? ==> |Words(r.value)| <= 18
  {
    var line := lines[i];
    if !(Contains(line, "images/") && Contains(line, stem)) then None
    else if i + 1 < |lines| && Describes(Strip(lines[i + 1])) then
      LimitWordsAtMost(Strip(lines[i + 1]), 18);
      Some(LimitWords(Strip(lines[i + 1]), 18))
    else if i > 0 && Describes(Strip(lines[i - 1])) then
      LimitWordsAtMost(Strip(lines[i - 1]), 18);
      Some(LimitWords(Strip(lines[i - 1]), 18))
    else None
  }

  /** The explanation at the first referencing line, from line `i` on, that has one. */
  function ContextExplanation(lines: seq<string>, stem: string, i: nat): (r: Option<string>)
    ensures r.Some? ==> |Words(r.value)| <= 18
    decreases |lines| - i
  {
    if i >= |lines| then None
    else
      match ExplanationAt(lines, stem, i)
      case Some(e) => Some(e)
      case None => ContextExplanation(lines, stem, i + 1)
  }

  /** The explanation loop of `extract_diagram_metadata`. */
  method FindExplanation(lines: seq<string>, stem: string) returns (e: Option<string>)
    ensures e == ContextExplanation(lines, stem, 0)
  {
    var i := 0;
    while i < |lines|
      invariant i <= |lines|
      invariant ContextExplanation(lines, stem, i) == ContextExplanation(lines, stem, 0)
    {
      var line := lines[i];
      if Contains(line, "images/") && Contains(line, stem) {
        if i + 1 < |lines| {
          var next := Strip(lines[i + 1]);
          if next != "" && !StartsWith(next, "#") && !StartsWith(next, "![") {
            return Some(LimitWords(next, 18));
          }
        }
        if i > 0 {
          var prev := Strip(lines[i - 1]);
          if prev != "" && !StartsWith(prev, "#") && !StartsWith(prev, "![") {
            return Some(LimitWords(prev, 18));
          }
        }
      }
      i := i + 1;
    }
    return None;
  }

  /** The digits of the leftmost `kapitel<digits>` from index `i` on (`re.search(r'kapitel(\d+)', s)`). */
  function KapitelFrom(s: string, i: nat): (r: Option<string>)
    ensures r.Some? ==> r.value != [] && AllDigits(r.value)
    decreases |s| - i
  {
    if i + 8 > |s| then None
    else if OccursAt(s, "kapitel", i) && IsDigit(s[i + 7]) then
      var rest := s[i + 7..];
      var n := Span(rest, IsDigit);
      Some(rest[..n])
    else KapitelFrom(s, i + 1)
  }

  /** How `None` prints in an f-string, and a purpose otherwise. */
  function PurposeText(purpose: Option<string>): string
  {
    match purpose
    case None => "None"
    case Some(p) => p
  }

  /** The explanation made up when the chapter gives none, before the word limit. */
  function FallbackExplanation(png: string, purpose: Option<string>): string
  {
    var low := Lower(png);
    if Contains(low, "kapitel") then
      match KapitelFrom(low, 0)
      case Some(n) => "Diagram: Kapitel " + n + " - " + PurposeText(purpose)
      case None => "Diagram: " + PurposeText(purpose)
    else "Diagram: " + PurposeText(purpose)
  }

  /** Where the Mermaid source of a rendered diagram is looked up. */
  function MmdPath(path: string): string { "docs/images/" + MmdName(Basename(path)) }

  /** The kind and purpose found in the source, when it can be read. */
  function SourceKind(store: string -> Option<string>, path: string): (string, Option<string>)
  {
    match store(MmdPath(path))
    case None => (UnknownKind, None)
    case Some(mmd) => var k := KindOf(KindLines(mmd)); (KindName(k), Some(KindPurpose(k)))
  }

  /**
   * `extract_diagram_metadata`: `store` gives the text of a file that exists
   * and can be read.  The explanation is taken from the chapter around the
   * diagram's reference, else made up from its purpose.
   */
  function DiagramMetadata(path: string, chapter: string, store: string -> Option<string>): DiagramInfo
  {
    if path == "" then DiagramInfo(None, UnknownKind, None, None)
    else
      var png := Basename(path);
      var kp := SourceKind(store, path);
      DiagramInfo(Some("Källa: " + MmdName(png)), kp.0, kp.1, Some(Explanation(png, chapter, kp.1)))
  }

  /** The explanation found in the chapter, else the one made up from the file name and purpose. */
  function Explanation(png: string, chapter: string, purpose: Option<string>): string
  {
    var found := if chapter != "" then ContextExplanation(Split(chapter, '\n'), ReplaceAll(png, ".png", ""), 0) else None;
    if found.Some? && found.value != "" then found.value else LimitWords(FallbackExplanation(png, purpose), 18)
  }

  method ChooseExplanation(png: string, chapter: string, purpose: Option<string>) returns (e: string)
    ensures e == Explanation(png, chapter, purpose)
  {
    var found: Option<string> := None;
    if chapter != "" {
      found := FindExplanation(Split(chapter, '\n'), ReplaceAll(png, ".png", ""));
    }
    if found.None? || found.value == "" {
      return LimitWords(FallbackExplanation(png, purpose), 18);
    }
    return found.value;
  }

  method ExtractDiagramMetadata(path: string, chapter: string, store: string -> Option<string>) returns (info: DiagramInfo)
    ensures info == DiagramMetadata(path, chapter, store)
  {
    info := DiagramInfo(None, UnknownKind, None, None);
    if path == "" {
      return;
    }
    var png := Basename(path);
    var mmdName := ReplaceAll(png, ".png", ".mmd");
    info := info.(source := Some("Källa: " + mmdName));
    var mmd := store("docs/images/" + mmdName);
    if mmd.Some? {
      var kind := DetectKind(KindLines(mmd.value));
      info := info.(kind := KindName(kind), purpose := Some(KindPurpose(kind)));
    }
    var explanation := ChooseExplanation(png, chapter, info.purpose);
    info := info.(explanation := Some(explanation));
  }

  /**
   * For a diagram path: the source names the `.mmd` file, the explanation has
   * at most 18 words, and the kind stays unknown exactly when the source
   * cannot be read, in which case no purpose is known either.
   */
  lemma MetadataFacts(path: string, chapter: string, store: string -> Option<string>)
    requires path != ""
    ensures var info := DiagramMetadata(path, chapter, store);
      info.source == Some("Källa: " + MmdName(Basename(path)))
      && info.explanation.Some? && |Words(info.explanation.value)| <= 18
      && (info.kind == UnknownKind <==> store(MmdPath(path)).None?)
      && (info.purpose.None? <==> store(MmdPath(path)).None?)
  {
    var png := Basename(path);
    LimitWordsAtMost(FallbackExplanation(png, SourceKind(store, path).1), 18);
    if store(MmdPath(path)).Some? {
      KindNamesDistinct(KindOf(KindLines(store(MmdPath(path)).value)), ArchitectureKind);
    }
  }

  /** Without a path nothing is known about a diagram. */
  lemma MetadataWithoutPath(chapter: string, store: string -> Option<string>)
    ensures DiagramMetadata("", chapter, store) == DiagramInfo(None, UnknownKind, None, None)
  {
  }

  /** A rendered diagram `<stem>.png` whose stem holds no `.png` has its source in `<stem>.mmd`. */
  lemma {:induction false} MmdNameOfStem(stem: string)
    requires !Contains(stem, ".png")
    ensures MmdName(stem + ".png") == stem + ".mmd"
    decreases |stem|
  {
    if stem == [] {
      var f := stem + ".png";
      assert f[4..] == [];
      assert MmdName(f) == ".mmd" + ReplaceAll([], ".png", ".mmd");
    } else {
      MmdNameCons(stem);
      MmdNameOfStem(stem[1..]);
      assert [stem[0]] + (stem[1..] + ".mmd") == stem + ".mmd";
    }
  }

  /** The first character of a stem without `.png` survives the renaming. */
  lemma MmdNameCons(stem: string)
    requires stem != [] && !Contains(stem, ".png")
    ensures !Contains(stem[1..], ".png")
    ensures MmdName(stem + ".png") == [stem[0]] + MmdName(stem[1..] + ".png")
  {
    var f := stem + ".png";
    PngNotAtFront(stem);
    assert f[1..] == stem[1..] + ".png";
    ReplaceAllSkip(f, ".png", ".mmd");
  }

  /** A non-empty stem without `.png` does not start `<stem>.png` with `.png`. */
  lemma PngNotAtFront(stem: string)
    requires stem != [] && !Contains(stem, ".png")
    ensures (stem + ".png")[..4] != ".png"
  {
    var f := stem + ".png";
    if |stem| >= 4 {
      assert f[..4] == stem[..4];
      assert !OccursAt(stem, ".png", 0);
    } else {
      assert f[..4][|stem|] == '.' != ".png"[|stem|];
    }
  }

  // ------------------------------------------------------- chapter slide

  const UntitledChapter := "Untitled Chapter"

  /** A line that gives the chapter its title. */
  predicate IsTitleLine(l: string) { StartsWith(l, "# ") }

  /** The text after the first `# ` line, trimmed, or the placeholder when there is none. */
  function Title(lines: seq<string>): (r: string)
    ensures (forall k :: 0 <= k < |lines| ==> !IsTitleLine(lines[k])) ==> r == UntitledChapter
    ensures (exists k :: 0 <= k < |lines| && IsTitleLine(lines[k])) ==>
      exists k :: 0 <= k < |lines| && IsTitleLine(lines[k]) && r == Strip(lines[k][2..])
                  && forall j :: 0 <= j < k ==> !IsTitleLine(lines[j])
  {
    var k := Seqs.FirstIndex(lines, IsTitleLine);
    if k < |lines| then Strip(lines[k][2..]) else UntitledChapter
  }

  method FindTitle(lines: seq<string>) returns (title: string)
    ensures title == Title(lines)
  {
    var i := 0;
    while i < |lines|
      invariant i <= |lines|
      invariant forall j :: 0 <= j < i ==> !IsTitleLine(lines[j])
    {
      if StartsWith(lines[i], "# ") {
        assert Seqs.FirstIndex(lines, IsTitleLine) == i;
        return Strip(lines[i][2..]);
      }
      i := i + 1;
    }
    return UntitledChapter;
  }

  /** A diagram line whose target is a `.png` file. */
  predicate IsPngDiagram(l: string) { DiagramRef(l).Some? && EndsWith(DiagramRef(l).value, ".png") }

  /** The target of the first diagram line whose target is a `.png` file. */
  function FirstDiagram(lines: seq<string>): (r: Option<string>)
    ensures r.Some? ==> EndsWith(r.value, ".png") && exists k :: 0 <= k < |lines| && DiagramRef(lines[k]) == r
    ensures r.None? <==> forall k :: 0 <= k < |lines| ==> !IsPngDiagram(lines[k])
  {
    var k := Seqs.FirstIndex(lines, IsPngDiagram);
    if k < |lines| then DiagramRef(lines[k]) else None
  }

  method FindDiagram(lines: seq<string>) returns (rel: Option<string>)
    ensures rel == FirstDiagram(lines)
  {
    var i := 0;
    while i < |lines|
      invariant i <= |lines|
      invariant forall j :: 0 <= j < i ==> !IsPngDiagram(lines[j])
    {
      var line := lines[i];
      if StartsWith(line, "![") && Contains(line, "images/") {
        var m := Whitepapers.ImageTarget(line);
        if m.Some? && EndsWith(m.value, ".png") {
          assert IsPngDiagram(lines[i]);
          assert Seqs.FirstIndex(lines, IsPngDiagram) == i;
          return m;
        }
      }
      i := i + 1;
    }
    return None;
  }

  /** A `.png` target keeps its extension under `docs/`. */
  lemma DocsPathPng(rel: string)
    requires EndsWith(rel, ".png")
    ensures EndsWith(DocsPath(rel), ".png")
  {
    if !StartsWith(rel, "/") {
      assert ("docs/" + rel)[|"docs/" + rel| - 4..] == rel[|rel| - 4..];
    }
  }

  /** `os.path.join("docs", rel)`: an absolute target replaces the directory. */
  function DocsPath(rel: string): string
  {
    if StartsWith(rel, "/") then rel else "docs/" + rel
  }

  // ---------------------------------------------------------- key points

  /** A section line worth a key point: not a heading, image or fence, and longer than 20 characters. */
  predicate Meaningful(l: string)
  {
    l != "" && !StartsWith(l, "#") && !StartsWith(l, "![") && !StartsWith(l, "```") && |Strip(l)| > 20
  }

  /** The text before the first `.`, trimmed; the first 150 characters when that is empty. */
  function FirstSentence(l: string): string
  {
    var f := Strip(Split(l, '.')[0]);
    if f == "" then Seqs.Take(l, 150) else f
  }

  /** The key point a section gives: its first meaningful line cut to a sentence of at most 20 words, if any. */
  function SectionPoint(content: seq<string>): (r: seq<string>)
    ensures |r| <= 1
    ensures forall k :: 0 <= k < |r| ==> |Words(r[k])| <= 20
  {
    var meaningful := Seqs.Filter(content, Meaningful);
    if meaningful == [] then []
    else
      LimitWordsAtMost(FirstSentence(meaningful[0]), 20);
      [LimitWords(FirstSentence(meaningful[0]), 20)]
  }

  method PointOfSection(content: seq<string>) returns (r: seq<string>)
    ensures r == SectionPoint(content)
  {
    var meaningful: seq<string> := [];
    var i := 0;
    while i < |content|
      invariant i <= |content|
      invariant meaningful == Seqs.Filter(content[..i], Meaningful)
    {
      assert content[..i + 1] == content[..i] + [content[i]];
      Seqs.FilterSnoc(content[..i], content[i], Meaningful);
      var l := content[i];
      if l != "" && !StartsWith(l, "#") && !StartsWith(l, "![") && !StartsWith(l, "```") && |Strip(l)| > 20 {
        meaningful := meaningful + [l];
      }
      i := i + 1;
    }
    assert content[..i] == content;
    if meaningful == [] {
      return [];
    }
    var first := Strip(Split(meaningful[0], '.')[0]);
    if first == "" {
      first := Seqs.Take(meaningful[0], 150);
    }
    return [LimitWords(first, 20)];
  }

  /** The state of the key-point loop: inside a fence, the current section's title, its lines, the points so far. */
  datatype KeyState = KeyState(inCode: bool, section: string, content: seq<string>, points: seq<string>)

  const Start := KeyState(false, "", [], [])

  /** The points with the current section's point added, when the section has a title and lines. */
  function Close(st: KeyState): (r: seq<string>)
    ensures |st.points| <= |r| <= |st.points| + 1 && r[..|st.points|] == st.points
    ensures st.section == "" ==> r == st.points
  {
    if st.section != "" && st.content != [] then st.points + SectionPoint(st.content) else st.points
  }

  /**
   * One line of the key-point loop: a fence toggles the code state, lines in
   * code are ignored, a `## ` heading closes the current section and opens
   * the next, and other non-empty lines join a section that has a title.
   */
  function Step(st: KeyState, raw: string): KeyState
  {
    var line := Strip(raw);
    if StartsWith(line, "```") then st.(inCode := !st.inCode)
    else if st.inCode then st
    else if StartsWith(line, "## ") then KeyState(false, Strip(line[3..]), [], Close(st))
    else if line != "" && st.section != "" then st.(content := st.content + [line])
    else st
  }

  function Fold(st: KeyState, lines: seq<string>): KeyState
    decreases |lines|
  {
    if lines == [] then st else Fold(Step(st, lines[0]), lines[1..])
  }

  /** The points of a chapter's lines before padding: the last section is closed at the end. */
  function RawPoints(lines: seq<string>): seq<string>
  {
    Close(Fold(Start, lines))
  }

  lemma {:induction false} FoldAppend(st: KeyState, a: seq<string>, b: seq<string>)
    ensures Fold(st, a + b) == Fold(Fold(st, a), b)
    decreases |a|
  {
    if a == [] {
      assert a + b == b;
    } else {
      assert (a + b)[0] == a[0] && (a + b)[1..] == a[1..] + b;
      FoldAppend(Step(st, a[0]), a[1..], b);
    }
  }

  /** A line that opens or closes a fence. */
  predicate IsFence(l: string) { StartsWith(Strip(l), "```") }

  /** Inside a fence, any number of lines that do not close it change nothing. */
  lemma {:induction false} CodeLinesIgnored(st: KeyState, b: seq<string>)
    requires st.inCode
    requires forall k :: 0 <= k < |b| ==> !IsFence(b[k])
    ensures Fold(st, b) == st
    decreases |b|
  {
    if b != [] {
      assert forall k :: 0 <= k < |b| - 1 ==> b[1..][k] == b[k + 1];
      CodeLinesIgnored(st, b[1..]);
    }
  }

  lemma FoldCons(st: KeyState, l: string, rest: seq<string>)
    ensures Fold(st, [l] + rest) == Fold(Step(st, l), rest)
  {
    assert ([l] + rest)[1..] == rest;
  }

  /** A fenced block between two fence lines contributes nothing to the key points. */
  lemma FencedBlockIgnored(a: seq<string>, open: string, b: seq<string>, close: string, c: seq<string>)
    requires !Fold(Start, a).inCode
    requires IsFence(open) && IsFence(close)
    requires forall k :: 0 <= k < |b| ==> !IsFence(b[k])
    ensures RawPoints(a + ([open] + (b + ([close] + c)))) == RawPoints(a + c)
  {
    var s := Fold(Start, a);
    var t := s.(inCode := true);
    FoldAppend(Start, a, [open] + (b + ([close] + c)));
    FoldCons(s, open, b + ([close] + c));
    assert Step(s, open) == t;
    FoldAppend(t, b, [close] + c);
    CodeLinesIgnored(t, b);
    FoldCons(t, close, c);
    assert Step(t, close) == s;
    FoldAppend(Start, a, c);
  }

  /** A line that opens a section. */
  predicate IsHeading(l: string) { StartsWith(Strip(l), "## ") }

  /** Without section headings there is never a current section. */
  lemma {:induction false} NoHeadingNoSection(st: KeyState, lines: seq<string>)
    requires st.section == "" && st.points == []
    requires forall k :: 0 <= k < |lines| ==> !IsHeading(lines[k])
    ensures Fold(st, lines).section == "" && Fold(st, lines).points == []
    decreases |lines|
  {
    if lines != [] {
      assert forall k :: 0 <= k < |lines| - 1 ==> lines[1..][k] == lines[k + 1];
      NoHeadingNoSection(Step(st, lines[0]), lines[1..]);
    }
  }

  /** Key points come only from `## ` sections: a chapter without one has none. */
  lemma NoSectionsNoPoints(lines: seq<string>)
    requires forall k :: 0 <= k < |lines| ==> !IsHeading(lines[k])
    ensures RawPoints(lines) == []
  {
    NoHeadingNoSection(Start, lines);
  }

  /** Every point collected so far has at most 20 words, and so it stays. */
  predicate ShortPoints(points: seq<string>) { forall k :: 0 <= k < |points| ==> |Words(points[k])| <= 20 }

  lemma {:induction false} FoldShort(st: KeyState, lines: seq<string>)
    requires ShortPoints(st.points)
    ensures ShortPoints(Fold(st, lines).points) && ShortPoints(Close(Fold(st, lines)))
    decreases |lines|
  {
    if lines != [] {
      var next := Step(st, lines[0]);
      assert ShortPoints(Close(st)) by {
        var c := Close(st);
        forall k | 0 <= k < |c| ensures |Words(c[k])| <= 20 {
          if k >= |st.points| {
            assert c[k] == SectionPoint(st.content)[k - |st.points|];
          } else {
            assert c[k] == st.points[k];
          }
        }
      }
      assert ShortPoints(next.points);
      FoldShort(next, lines[1..]);
    } else {
      var c := Close(st);
      forall k | 0 <= k < |c| ensures |Words(c[k])| <= 20 {
        if k >= |st.points| {
          assert c[k] == SectionPoint(st.content)[k - |st.points|];
        } else {
          assert c[k] == st.points[k];
        }
      }
    }
  }

  /** The general points added to a slide with `n` points, about the lowercased title `low`. */
  function Template(n: nat, low: string): string
  {
    if n == 1 then "Praktisk implementation av " + low + " i svenska organisationer"
    else if n == 2 then "Säkerhetsaspekter och best practices inom " + low
    else if n == 3 then "Automatisering och CI/CD för " + low
    else "Kostnadsoptimering och skalbarhet för " + low
  }

  /** The general point added to a slide with `n` points, limited to 20 words. */
  function Filler(n: nat, low: string): string { LimitWords(Template(n, low), 20) }

  /** One to four points are padded to five with the general points; none or five and more stay. */
  function Padded(points: seq<string>, low: string): (r: seq<string>)
    ensures |r| == if points == [] then 0 else if |points| < 5 then 5 else |points|
    ensures r[..|points|] == points
    decreases if |points| < 5 then 5 - |points| else 0
  {
    if 0 < |points| < 5 then
      var ext := points + [Filler(|points|, low)];
      var r := Padded(ext, low);
      assert r[..|points|] == r[..|ext|][..|points|];
      r
    else points
  }

  /** The added points have at most 20 words. */
  lemma {:induction false} PaddedWords(points: seq<string>, low: string)
    ensures forall k :: |points| <= k < |Padded(points, low)| ==> |Words(Padded(points, low)[k])| <= 20
    decreases if |points| < 5 then 5 - |points| else 0
  {
    if 0 < |points| < 5 {
      var added := Filler(|points|, low);
      LimitWordsAtMost(Template(|points|, low), 20);
      var ext := points + [added];
      PaddedWords(ext, low);
      var r := Padded(ext, low);
      assert r == Padded(points, low);
      assert r[|points|] == added by {
        assert r[..|ext|] == ext;
        assert r[..|ext|][|points|] == r[|points|];
      }
      forall k | |points| <= k < |r| ensures |Words(r[k])| <= 20 {
        if k > |points| {
          assert |ext| <= k;
        }
      }
    } else {
      assert Padded(points, low) == points;
    }
  }

  /** The padding loop of `read_chapter_content`. */
  method PadKeyPoints(points: seq<string>, title: string) returns (r: seq<string>)
    ensures r == Padded(points, Lower(title))
  {
    r := points;
    var low := Lower(title);
    while |r| < 5 && |r| > 0
      invariant Padded(r, low) == Padded(points, low)
      decreases 5 - |r|
    {
      if |r| == 1 {
        r := r + [LimitWords("Praktisk implementation av " + low + " i svenska organisationer", 20)];
      } else if |r| == 2 {
        r := r + [LimitWords("Säkerhetsaspekter och best practices inom " + low, 20)];
      } else if |r| == 3 {
        r := r + [LimitWords("Automatisering och CI/CD för " + low, 20)];
      } else {
        r := r + [LimitWords("Kostnadsoptimering och skalbarhet för " + low, 20)];
      }
    }
  }

  /** The key-point loop of `read_chapter_content`, with its final section. */
  method CollectKeyPoints(lines: seq<string>) returns (points: seq<string>)
    ensures points == RawPoints(lines)
  {
    var inCode, section, content := false, "", [];
    points := [];
    var i := 0;
    while i < |lines|
      invariant i <= |lines|
      invariant Fold(KeyState(inCode, section, content, points), lines[i..]) == Fold(Start, lines)
    {
      ghost var before := KeyState(inCode, section, content, points);
      var line := Strip(lines[i]);
      if StartsWith(line, "```") {
        inCode := !inCode;
      } else if !inCode {
        if StartsWith(line, "## ") {
          if section != "" && content != [] {
            var p := PointOfSection(content);
            points := points + p;
          }
          section := Strip(line[3..]);
          content := [];
        } else if line != "" && section != "" {
          content := content + [line];
        }
      }
      assert KeyState(inCode, section, content, points) == Step(before, lines[i]);
      assert lines[i..][1..] == lines[i + 1..];
      i := i + 1;
    }
    assert lines[i..] == [];
    if section != "" && content != [] {
      var p := PointOfSection(content);
      points := points + p;
    }
  }

  /** What a chapter slide shows. */
  datatype ChapterSlide = ChapterSlide(title: string, keyPoints: seq<string>, diagramPath: Option<string>,
                                       diagramMetadata: Option<DiagramInfo>)

  /** `read_chapter_content` on the text of a chapter; `None` when the file cannot be read. */
  function ChapterSlideOf(content: Option<string>, store: string -> Option<string>): Option<ChapterSlide>
  {
    match content
    case None => None
    case Some(text) =>
      var lines := Split(text, '\n');
      var title := Title(lines);
      var path := match FirstDiagram(lines) case None => None case Some(rel) => Some(DocsPath(rel));
      var meta := match path case None => None case Some(p) => Some(DiagramMetadata(p, text, store));
      Some(ChapterSlide(title, Seqs.Take(Padded(RawPoints(lines), Lower(title)), 10), path, meta))
  }

  method ReadChapterContent(content: Option<string>, store: string -> Option<string>) returns (r: Option<ChapterSlide>)
    ensures r == ChapterSlideOf(content, store)
  {
    if content.None? {
      return None;
    }
    var text := content.value;
    var lines := Split(text, '\n');
    var title := FindTitle(lines);
    var path: Option<string> := None;
    var meta: Option<DiagramInfo> := None;
    var rel := FindDiagram(lines);
    if rel.Some? {
      path := Some(DocsPath(rel.value));
      var info := ExtractDiagramMetadata(path.value, text, store);
      meta := Some(info);
    }
    var points := CollectKeyPoints(lines);
    points := PadKeyPoints(points, title);
    return Some(ChapterSlide(title, Seqs.Take(points, 10), path, meta));
  }

  /** A slide has no key point at all, or between five and ten; five and more come as they are, up to ten. */
  lemma KeyPointCount(content: Option<string>, store: string -> Option<string>)
    requires content.Some?
    ensures var n := |RawPoints(Split(content.value, '\n'))|;
      var k := |ChapterSlideOf(content, store).value.keyPoints|;
      k == (if n == 0 then 0 else if n < 5 then 5 else if n > 10 then 10 else n)
      && (k == 0 || 5 <= k <= 10)
  {
  }

  /** Every key point on a slide has at most 20 words. */
  lemma KeyPointWords(content: Option<string>, store: string -> Option<string>)
    requires content.Some?
    ensures var kp := ChapterSlideOf(content, store).value.keyPoints;
      forall k :: 0 <= k < |kp| ==> |Words(kp[k])| <= 20
  {
    var lines := Split(content.value, '\n');
    var title := Title(lines);
    var raw := RawPoints(lines);
    FoldShort(Start, lines);
    PaddedWords(raw, Lower(title));
    var padded := Padded(raw, Lower(title));
    forall k | 0 <= k < |padded| ensures |Words(padded[k])| <= 20 {
      if k < |raw| {
        assert padded[k] == padded[..|raw|][k];
      }
    }
  }

  /** A slide's diagram is the first `.png` diagram of the chapter, under `docs/`, with its metadata beside it. */
  lemma SlideDiagram(content: Option<string>, store: string -> Option<string>)
    requires content.Some?
    ensures var s := ChapterSlideOf(content, store).value;
      var first := FirstDiagram(Split(content.value, '\n'));
      (s.diagramPath.Some? <==> first.Some?)
      && (s.diagramPath.Some? ==>
            EndsWith(s.diagramPath.value, ".png")
            && s.diagramMetadata == Some(DiagramMetadata(s.diagramPath.value, content.value, store)))
  {
    var first := FirstDiagram(Split(content.value, '\n'));
    if first.Some? {
      DocsPathPng(first.value);
    }
  }
}
