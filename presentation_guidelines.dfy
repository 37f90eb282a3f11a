/**
 * The presentation guidelines validator: three passes over the slides of
 * `presentation_data.json` (text lengths and bullet limits, diagram metadata,
 * repeated chapter titles) collect critical issues and warnings, the report
 * groups the warnings by type, and the exit status fails on any critical
 * issue, and on any warning under `--strict`.
 */
module PresentationGuidelines {
  import opened Wrappers
  import opened Str
  import Seqs

  /** A diagram's metadata; a missing or empty field is the empty string. */
  datatype Metadata = Metadata(kind: string, source: string, explanation: string)

  /**
   * A chapter entry with `chapter.get`'s defaults: no title is "", no key
   * points is [], no diagram path is "", and missing or empty metadata is `None`.
   */
  datatype Chapter = Chapter(title: string, keyPoints: seq<string>, diagramPath: string, metadata: Option<Metadata>)

  /** An entry of the data file, by its `type`; other types are not checked. */
  datatype Entry = ChapterEntry(chapter: Chapter) | PartEntry(partTitle: string) | OtherEntry

  datatype Layout = Hero | Side

  /** The warnings; `slide` is the field the report prints. */
  datatype Warning =
    | TitleLength(slide: nat, words: nat, title: string)
    | BulletLength(slide: nat, point: nat, words: nat, content: string)
    | BulletCount(slide: nat, count: nat, layout: Layout)
    | PartTitleLength(slide: nat, words: nat, title: string)
    | MissingDiagramType(slide: nat)
    | MissingDiagramSource(slide: nat)
    | MissingDiagramExplanation(slide: nat)
    | LongDiagramExplanation(slide: nat, words: nat)
    | NoDiagram(slide: nat)
    | DuplicateTitle(slide: nat, title: string)

  /** The critical issues. */
  datatype Issue = MissingDiagram(slide: nat, path: string) | MissingMetadata(slide: nat, path: string)

  /** A warning's `type` field, by which the report groups. */
  function TypeName(w: Warning): string
  {
    match w
    case TitleLength(_, _, _) => "title_length"
    case BulletLength(_, _, _, _) => "bullet_length"
    case BulletCount(_, _, _) => "bullet_count"
    case PartTitleLength(_, _, _) => "part_title_length"
    case MissingDiagramType(_) => "missing_diagram_type"
    case MissingDiagramSource(_) => "missing_diagram_source"
    case MissingDiagramExplanation(_) => "missing_diagram_explanation"
    case LongDiagramExplanation(_, _) => "long_diagram_explanation"
    case NoDiagram(_) => "no_diagram"
    case DuplicateTitle(_, _) => "duplicate_title"
  }

  // ------------------------------------------------------ text content

  /** Odd slides use the hero layout, even slides the side layout. */
  function LayoutOf(slide: nat): Layout
  {
    if slide % 2 == 1 then Hero else Side
  }

  /** The bullet limit of a layout. */
  function MaxPoints(layout: Layout): nat
  {
    match layout
    case Hero => 4
    case Side => 8
  }

  /** The bullet shown in a warning: its first 50 characters and `...` when it is longer. */
  function Excerpt(point: string): (r: string)
    ensures |point| <= 50 ==> r == point
    ensures |point| > 50 ==> |r| == 53 && r[..50] == point[..50]
  {
    if |point| > 50 then point[..50] + "..." else point
  }

  function BulletOf(slide: nat, k: nat, point: string): seq<Warning>
  {
    if |Words(point)| > 20 then [BulletLength(slide, k, |Words(point)|, Excerpt(point))] else []
  }

  function BulletAt(slide: nat): (nat, string) -> seq<Warning>
  {
    (k: nat, point: string) => BulletOf(slide, k, point)
  }

  /** The text warnings of a chapter on slide `slide`: title, then each bullet, then the bullet count. */
  function ChapterText(slide: nat, c: Chapter): seq<Warning>
  {
    (if |Words(c.title)| > 10 then [TitleLength(slide, |Words(c.title)|, c.title)] else [])
    + Seqs.FlatMapIndexed(c.keyPoints, BulletAt(slide))
    + (if |c.keyPoints| > MaxPoints(LayoutOf(slide)) then [BulletCount(slide, |c.keyPoints|, LayoutOf(slide))] else [])
  }

  function TextAt(slide: nat, e: Entry): seq<Warning>
  {
    match e
    case ChapterEntry(c) => ChapterText(slide, c)
    case PartEntry(t) => if |Words(t)| > 8 then [PartTitleLength(slide, |Words(t)|, t)] else []
    case OtherEntry => []
  }

  /** `validate_text_content`'s warnings, slide by slide with slides numbered from 1. */
  function TextWarnings(data: seq<Entry>): seq<Warning>
  {
    Seqs.FlatMapIndexed(data, TextAt)
  }

  /** What justifies a text warning about entry `e`. */
  predicate TextCause(e: Entry, w: Warning)
  {
    match w
    case TitleLength(n, words, title) =>
      e.ChapterEntry? && title == e.chapter.title && words == |Words(title)| && words > 10
    case BulletLength(n, k, words, content) =>
      e.ChapterEntry? && 1 <= k <= |e.chapter.keyPoints|
      && words == |Words(e.chapter.keyPoints[k - 1])| && words > 20
      && content == Excerpt(e.chapter.keyPoints[k - 1])
    case BulletCount(n, count, layout) =>
      e.ChapterEntry? && count == |e.chapter.keyPoints| && layout == LayoutOf(n) && count > MaxPoints(layout)
    case PartTitleLength(n, words, title) =>
      e.PartEntry? && title == e.partTitle && words == |Words(title)| && words > 8
    case _ => false
  }

  /** The warnings for one slide are exactly those it justifies, and all carry its number. */
  lemma TextAtSound(slide: nat, e: Entry, w: Warning)
    requires w in TextAt(slide, e)
    ensures w.slide == slide && TextCause(e, w)
  {
    if e.ChapterEntry? {
      ChapterTextSound(slide, e.chapter, w);
    }
  }

  lemma ChapterTextSound(slide: nat, c: Chapter, w: Warning)
    requires w in ChapterText(slide, c)
    ensures w.slide == slide && TextCause(ChapterEntry(c), w)
  {
    if w in Seqs.FlatMapIndexed(c.keyPoints, BulletAt(slide)) {
      var k := Seqs.FlatMapIndexedSource(c.keyPoints, BulletAt(slide), w);
      assert w in BulletOf(slide, k + 1, c.keyPoints[k]);
    }
  }

  lemma TextAtComplete(e: Entry, w: Warning)
    requires TextCause(e, w)
    ensures w in TextAt(w.slide, e)
  {
    if w.BulletLength? {
      var points := e.chapter.keyPoints;
      assert BulletAt(w.slide)(w.point, points[w.point - 1]) == [w];
      Seqs.FlatMapIndexedMember(points, BulletAt(w.slide), w.point - 1, w);
    }
  }

  /** A warning about slide `n` is reported exactly when slide `n` justifies it. */
  lemma TextWarningsIff(data: seq<Entry>, w: Warning)
    requires 1 <= w.slide <= |data|
    ensures w in TextWarnings(data) <==> TextCause(data[w.slide - 1], w)
  {
    if w in TextWarnings(data) {
      var k := Seqs.FlatMapIndexedSource(data, TextAt, w);
      var e := data[k];
      assert w in TextAt(k + 1, e);
      TextAtSound(k + 1, e, w);
    }
    if TextCause(data[w.slide - 1], w) {
      TextAtComplete(data[w.slide - 1], w);
      Seqs.FlatMapIndexedMember(data, TextAt, w.slide - 1, w);
    }
  }

  /** Every text warning names a slide of the deck. */
  lemma TextWarningInDeck(data: seq<Entry>, w: Warning)
    requires w in TextWarnings(data)
    ensures 1 <= w.slide <= |data|
  {
    var k := Seqs.FlatMapIndexedSource(data, TextAt, w);
    var e := data[k];
    assert w in TextAt(k + 1, e);
    TextAtSound(k + 1, e, w);
  }

  /** The chapter checks, with the bullet loop. */
  method CheckChapterText(slide: nat, c: Chapter) returns (found: seq<Warning>)
    ensures found == ChapterText(slide, c)
  {
    found := if |Words(c.title)| > 10 then [TitleLength(slide, |Words(c.title)|, c.title)] else [];
    var points := c.keyPoints;
    var bullets: seq<Warning> := [];
    for k := 0 to |points|
      invariant bullets == Seqs.FlatMapIndexed(points[..k], BulletAt(slide))
    {
      Seqs.PrefixSnoc(points, k);
      Seqs.FlatMapIndexedSnoc(points[..k], points[k], BulletAt(slide));
      var count := |Words(points[k])|;
      if count > 20 {
        bullets := bullets + [BulletLength(slide, k + 1, count, Excerpt(points[k]))];
      }
    }
    Seqs.PrefixAll(points);
    found := found + bullets;
    var layout := LayoutOf(slide);
    if |points| > MaxPoints(layout) {
      found := found + [BulletCount(slide, |points|, layout)];
    }
  }

  /** `validate_text_content`: warnings only, never a critical issue. */
  method ValidateTextContent(data: seq<Entry>) returns (issues: seq<Issue>, warnings: seq<Warning>)
    ensures issues == []
    ensures warnings == TextWarnings(data)
  {
    issues, warnings := [], [];
    for idx := 0 to |data|
      invariant warnings == Seqs.FlatMapIndexed(data[..idx], TextAt)
    {
      Seqs.PrefixSnoc(data, idx);
      Seqs.FlatMapIndexedSnoc(data[..idx], data[idx], TextAt);
      var slide := idx + 1;
      match data[idx] {
        case ChapterEntry(c) =>
          var found := CheckChapterText(slide, c);
          warnings := warnings + found;
        case PartEntry(t) =>
          var count := |Words(t)|;
          if count > 8 {
            warnings := warnings + [PartTitleLength(slide, count, t)];
          }
        case OtherEntry =>
      }
    }
    Seqs.PrefixAll(data);
  }

  // ------------------------------------------------------ diagrams

  /** A chapter's critical diagram issues, given which files exist. */
  function IssuesOf(fileExists: string -> bool, slide: nat, e: Entry): seq<Issue>
  {
    if e.ChapterEntry? && e.chapter.diagramPath != "" then
      var path := e.chapter.diagramPath;
      (if !fileExists(path) then [MissingDiagram(slide, path)] else [])
      + (if e.chapter.metadata.None? then [MissingMetadata(slide, path)] else [])
    else []
  }

  function IssuesAt(fileExists: string -> bool): (nat, Entry) -> seq<Issue>
  {
    (slide: nat, e: Entry) => IssuesOf(fileExists, slide, e)
  }

  /** A chapter's diagram warnings: incomplete metadata, a long explanation, or no diagram at all. */
  function DiagramWarningsAt(slide: nat, e: Entry): seq<Warning>
  {
    if !e.ChapterEntry? then []
    else if e.chapter.diagramPath == "" then [NoDiagram(slide)]
    else match e.chapter.metadata {
      case None => []
      case Some(m) =>
        (if m.kind == "" then [MissingDiagramType(slide)] else [])
        + (if m.source == "" then [MissingDiagramSource(slide)] else [])
        + (if m.explanation == "" then [MissingDiagramExplanation(slide)]
           else if |Words(m.explanation)| > 18 then [LongDiagramExplanation(slide, |Words(m.explanation)|)]
           else [])
    }
  }

  function DiagramIssues(data: seq<Entry>, fileExists: string -> bool): seq<Issue>
  {
    Seqs.FlatMapIndexed(data, IssuesAt(fileExists))
  }

  function DiagramWarnings(data: seq<Entry>): seq<Warning>
  {
    Seqs.FlatMapIndexed(data, DiagramWarningsAt)
  }

  /** What justifies a critical issue about entry `e`. */
  predicate IssueCause(e: Entry, fileExists: string -> bool, x: Issue)
  {
    e.ChapterEntry? && e.chapter.diagramPath != "" && x.path == e.chapter.diagramPath
    && match x
       case MissingDiagram(_, path) => !fileExists(path)
       case MissingMetadata(_, _) => e.chapter.metadata.None?
  }

  lemma IssuesAtSound(fileExists: string -> bool, slide: nat, e: Entry, x: Issue)
    requires x in IssuesAt(fileExists)(slide, e)
    ensures x.slide == slide && IssueCause(e, fileExists, x)
  {
  }

  lemma IssuesAtComplete(fileExists: string -> bool, e: Entry, x: Issue)
    requires IssueCause(e, fileExists, x)
    ensures x in IssuesAt(fileExists)(x.slide, e)
  {
  }

  /**
   * A critical issue about slide `n` is reported exactly when that slide is a
   * chapter with a diagram path whose file is missing, or which has no metadata.
   */
  lemma DiagramIssuesIff(data: seq<Entry>, fileExists: string -> bool, x: Issue)
    requires 1 <= x.slide <= |data|
    ensures x in DiagramIssues(data, fileExists) <==> IssueCause(data[x.slide - 1], fileExists, x)
  {
    if x in DiagramIssues(data, fileExists) {
      var k := Seqs.FlatMapIndexedSource(data, IssuesAt(fileExists), x);
      IssuesAtSound(fileExists, k + 1, data[k], x);
    }
    if IssueCause(data[x.slide - 1], fileExists, x) {
      IssuesAtComplete(fileExists, data[x.slide - 1], x);
      Seqs.FlatMapIndexedMember(data, IssuesAt(fileExists), x.slide - 1, x);
    }
  }

  /** Some critical issue is reported exactly when some chapter's diagram is missing or lacks metadata. */
  lemma {:induction false} SomeIssueIff(data: seq<Entry>, fileExists: string -> bool)
    ensures DiagramIssues(data, fileExists) != [] <==>
              exists k :: 0 <= k < |data| && data[k].ChapterEntry? && data[k].chapter.diagramPath != ""
                && (!fileExists(data[k].chapter.diagramPath) || data[k].chapter.metadata.None?)
  {
    var issues := DiagramIssues(data, fileExists);
    if issues != [] {
      var x := issues[0];
      var k := Seqs.FlatMapIndexedSource(data, IssuesAt(fileExists), x);
      IssuesAtSound(fileExists, k + 1, data[k], x);
    }
    if exists k :: 0 <= k < |data| && data[k].ChapterEntry? && data[k].chapter.diagramPath != ""
         && (!fileExists(data[k].chapter.diagramPath) || data[k].chapter.metadata.None?) {
      var k :| 0 <= k < |data| && data[k].ChapterEntry? && data[k].chapter.diagramPath != ""
                && (!fileExists(data[k].chapter.diagramPath) || data[k].chapter.metadata.None?);
      var path := data[k].chapter.diagramPath;
      var x := if !fileExists(path) then MissingDiagram(k + 1, path) else MissingMetadata(k + 1, path);
      IssuesAtComplete(fileExists, data[k], x);
      Seqs.FlatMapIndexedMember(data, IssuesAt(fileExists), k, x);
    }
  }

  /** A chapter without a diagram path is warned about, and a slide that is not a chapter never is. */
  lemma NoDiagramIff(data: seq<Entry>, n: nat)
    requires 1 <= n <= |data|
    ensures NoDiagram(n) in DiagramWarnings(data) <==> data[n - 1].ChapterEntry? && data[n - 1].chapter.diagramPath == ""
  {
    if NoDiagram(n) in DiagramWarnings(data) {
      var k := Seqs.FlatMapIndexedSource(data, DiagramWarningsAt, NoDiagram(n));
      var e := data[k];
      assert NoDiagram(n) in DiagramWarningsAt(k + 1, e);
      DiagramWarningSlide(k + 1, e, NoDiagram(n));
    }
    if data[n - 1].ChapterEntry? && data[n - 1].chapter.diagramPath == "" {
      var e := data[n - 1];
      assert DiagramWarningsAt(n, e) == [NoDiagram(n)];
      Seqs.FlatMapIndexedMember(data, DiagramWarningsAt, n - 1, NoDiagram(n));
    }
  }

  /** Every diagram warning for a slide carries its number; `NoDiagram` only for a chapter without a path. */
  lemma DiagramWarningSlide(slide: nat, e: Entry, w: Warning)
    requires w in DiagramWarningsAt(slide, e)
    ensures w.slide == slide
    ensures w.NoDiagram? ==> e.ChapterEntry? && e.chapter.diagramPath == ""
  {
  }

  /** An explanation is called long exactly when it is present and has more than 18 words. */
  lemma LongExplanationIff(slide: nat, c: Chapter, m: Metadata)
    requires c.diagramPath != "" && c.metadata == Some(m)
    ensures (exists w :: w in DiagramWarningsAt(slide, ChapterEntry(c)) && w.LongDiagramExplanation?)
              <==> m.explanation != "" && |Words(m.explanation)| > 18
  {
    if m.explanation != "" && |Words(m.explanation)| > 18 {
      assert LongDiagramExplanation(slide, |Words(m.explanation)|) in DiagramWarningsAt(slide, ChapterEntry(c));
    }
  }

  /** The checks of one slide. */
  method CheckDiagram(fileExists: string -> bool, slide: nat, e: Entry) returns (issues: seq<Issue>, warnings: seq<Warning>)
    ensures issues == IssuesOf(fileExists, slide, e)
    ensures warnings == DiagramWarningsAt(slide, e)
  {
    issues, warnings := [], [];
    if e.ChapterEntry? {
      var c := e.chapter;
      if c.diagramPath != "" {
        if !fileExists(c.diagramPath) {
          issues := issues + [MissingDiagram(slide, c.diagramPath)];
        }
        match c.metadata {
          case None =>
            issues := issues + [MissingMetadata(slide, c.diagramPath)];
          case Some(m) =>
            if m.kind == "" {
              warnings := warnings + [MissingDiagramType(slide)];
            }
            if m.source == "" {
              warnings := warnings + [MissingDiagramSource(slide)];
            }
            if m.explanation == "" {
              warnings := warnings + [MissingDiagramExplanation(slide)];
            } else if |Words(m.explanation)| > 18 {
              warnings := warnings + [LongDiagramExplanation(slide, |Words(m.explanation)|)];
            }
        }
      } else {
        warnings := warnings + [NoDiagram(slide)];
      }
    }
  }

  /** `validate_diagrams`, given which diagram files exist. */
  method ValidateDiagrams(data: seq<Entry>, fileExists: string -> bool) returns (issues: seq<Issue>, warnings: seq<Warning>)
    ensures issues == DiagramIssues(data, fileExists)
    ensures warnings == DiagramWarnings(data)
  {
    issues, warnings := [], [];
    for idx := 0 to |data|
      invariant issues == Seqs.FlatMapIndexed(data[..idx], IssuesAt(fileExists))
      invariant warnings == Seqs.FlatMapIndexed(data[..idx], DiagramWarningsAt)
    {
      Seqs.PrefixSnoc(data, idx);
      Seqs.FlatMapIndexedSnoc(data[..idx], data[idx], IssuesAt(fileExists));
      Seqs.FlatMapIndexedSnoc(data[..idx], data[idx], DiagramWarningsAt);
      var found, warned := CheckDiagram(fileExists, idx + 1, data[idx]);
      assert IssuesAt(fileExists)(idx + 1, data[idx]) == found;
      issues, warnings := issues + found, warnings + warned;
    }
    Seqs.PrefixAll(data);
  }

  // ------------------------------------------------------ accessibility

  function TitleOf(e: Entry): Option<string>
  {
    if e.ChapterEntry? then Some(e.chapter.title) else None
  }

  /** The chapter titles in slide order. */
  function ChapterTitles(data: seq<Entry>): seq<string>
  {
    Seqs.FilterMap(data, TitleOf)
  }

  lemma ChapterTitlesSnoc(data: seq<Entry>, e: Entry)
    ensures ChapterTitles(data + [e]) == ChapterTitles(data) + (if e.ChapterEntry? then [e.chapter.title] else [])
  {
    assert (data + [e])[..|data|] == data;
  }

  /**
   * The duplicate warnings over the chapter titles: a title already seen is
   * reported with the number of titles seen before it plus one.
   */
  function Duplicates(titles: seq<string>): seq<Warning>
  {
    if titles == [] then []
    else
      var seen := titles[..|titles| - 1];
      var t := titles[|titles| - 1];
      Duplicates(seen) + (if t in seen then [DuplicateTitle(|titles|, t)] else [])
  }

  lemma DuplicatesSnoc(titles: seq<string>, t: string)
    ensures Duplicates(titles + [t]) == Duplicates(titles) + (if t in titles then [DuplicateTitle(|titles| + 1, t)] else [])
  {
    assert (titles + [t])[..|titles|] == titles;
  }

  /** The `j`-th chapter title is reported exactly when an earlier chapter has the same title. */
  lemma {:induction false} DuplicatesIff(titles: seq<string>, j: nat, t: string)
    ensures DuplicateTitle(j, t) in Duplicates(titles) <==> 1 <= j <= |titles| && titles[j - 1] == t && t in titles[..j - 1]
  {
    if titles != [] {
      var seen := titles[..|titles| - 1];
      DuplicatesIff(seen, j, t);
      DuplicatesSlides(seen);
      if 1 <= j < |titles| {
        assert seen[j - 1] == titles[j - 1] && seen[..j - 1] == titles[..j - 1];
      }
    }
  }

  /** The numbers run up to the count of titles. */
  lemma {:induction false} DuplicatesSlides(titles: seq<string>)
    ensures forall w :: w in Duplicates(titles) ==> 1 <= w.slide <= |titles|
  {
    if titles != [] {
      DuplicatesSlides(titles[..|titles| - 1]);
    }
  }

  /** `validate_accessibility`: the titles seen grow by one per chapter. */
  method ValidateAccessibility(data: seq<Entry>) returns (issues: seq<Issue>, warnings: seq<Warning>)
    ensures issues == []
    ensures warnings == Duplicates(ChapterTitles(data))
  {
    warnings := [];
    var slideTitles: seq<string> := [];
    for idx := 0 to |data|
      invariant slideTitles == ChapterTitles(data[..idx])
      invariant warnings == Duplicates(slideTitles)
    {
      Seqs.PrefixSnoc(data, idx);
      ChapterTitlesSnoc(data[..idx], data[idx]);
      if data[idx].ChapterEntry? {
        var title := data[idx].chapter.title;
        DuplicatesSnoc(slideTitles, title);
        if title in slideTitles {
          warnings := warnings + [DuplicateTitle(|slideTitles| + 1, title)];
        }
        slideTitles := slideTitles + [title];
      }
    }
    Seqs.PrefixAll(data);
    return [], warnings;
  }

  /** As written, the duplicate's number counts chapters, not slides: after a part slide it is one short. */
  lemma DuplicateNumberCountsChapters(part: string, c: Chapter)
    ensures Duplicates(ChapterTitles([PartEntry(part), ChapterEntry(c), ChapterEntry(c)])) == [DuplicateTitle(2, c.title)]
  {
    var e0, e1 := PartEntry(part), ChapterEntry(c);
    var d3 := [e0, e1, e1];
    assert d3[..2] == [e0, e1] && [e0, e1][..1] == [e0] && [e0][..0] == [];
    assert ChapterTitles([e0]) == [];
    assert ChapterTitles([e0, e1]) == [c.title];
    assert ChapterTitles(d3) == [c.title, c.title];
    var ts := [c.title, c.title];
    assert ts[..1] == [c.title] && [c.title][..0] == [];
    assert Duplicates([c.title]) == [];
  }

  // ------------------------------------------------------ report

  function OfType(name: string): Warning -> bool
  {
    (w: Warning) => TypeName(w) == name
  }

  /** The warning types in order of first appearance (the key order of `warnings_by_type`). */
  function TypeOrder(warnings: seq<Warning>): seq<string>
  {
    Seqs.Dedup(Seqs.Map(warnings, TypeName))
  }

  /** `order` and `groups` are `warnings_by_type`'s keys and lists after the warnings `ws`. */
  ghost predicate Grouped(order: seq<string>, groups: map<string, seq<Warning>>, ws: seq<Warning>)
  {
    && order == TypeOrder(ws)
    && (forall t :: t in groups <==> t in order)
    && (forall t :: t in groups ==> groups[t] == Seqs.Filter(ws, OfType(t)))
    && (forall t :: t !in groups ==> Seqs.Filter(ws, OfType(t)) == [])
  }

  /** The lists after appending `w` to its type's, created when the type is new. */
  function Added(groups: map<string, seq<Warning>>, w: Warning): map<string, seq<Warning>>
  {
    var name := TypeName(w);
    if name in groups then groups[name := groups[name] + [w]] else groups[name := [w]]
  }

  function AddedOrder(order: seq<string>, groups: map<string, seq<Warning>>, w: Warning): seq<string>
  {
    if TypeName(w) in groups then order else order + [TypeName(w)]
  }

  lemma GroupedSnoc(order: seq<string>, groups: map<string, seq<Warning>>, ws: seq<Warning>, w: Warning)
    requires Grouped(order, groups, ws)
    ensures Grouped(AddedOrder(order, groups, w), Added(groups, w), ws + [w])
  {
    var name := TypeName(w);
    Seqs.MapSnoc(ws, w, TypeName);
    Seqs.DedupSnoc(Seqs.Map(ws, TypeName), name);
    assert AddedOrder(order, groups, w) == TypeOrder(ws + [w]);
    var groups' := Added(groups, w);
    forall t | t in groups' ensures groups'[t] == Seqs.Filter(ws + [w], OfType(t)) {
      Seqs.FilterSnoc(ws, w, OfType(t));
    }
    forall t | t !in groups' ensures Seqs.Filter(ws + [w], OfType(t)) == [] {
      Seqs.FilterSnoc(ws, w, OfType(t));
    }
  }

  /** `warnings_by_type`: each type's warnings in their order. */
  method GroupWarnings(warnings: seq<Warning>) returns (order: seq<string>, groups: map<string, seq<Warning>>)
    ensures order == TypeOrder(warnings)
    ensures forall t :: t in groups <==> t in order
    ensures forall t :: t in groups ==> groups[t] == Seqs.Filter(warnings, OfType(t))
  {
    order, groups := [], map[];
    for i := 0 to |warnings|
      invariant Grouped(order, groups, warnings[..i])
    {
      var w := warnings[i];
      var name := TypeName(w);
      Seqs.PrefixSnoc(warnings, i);
      GroupedSnoc(order, groups, warnings[..i], w);
      if name !in groups {
        order := order + [name];
        groups := groups[name := [w]];
      } else {
        groups := groups[name := groups[name] + [w]];
      }
    }
    Seqs.PrefixAll(warnings);
  }

  /** The report section of one warning type: its count, the first five warnings and how many more there are. */
  datatype Section = Section(name: string, count: nat, shown: seq<Warning>, more: nat)

  function SectionOf(name: string, group: seq<Warning>): (s: Section)
    ensures s.name == name && s.count == |group|
    ensures |s.shown| <= 5 && |s.shown| <= |group| && s.shown == group[..|s.shown|] && s.count == |s.shown| + s.more
    ensures s.more > 0 <==> |group| > 5
  {
    var shown := Seqs.Take(group, 5);
    Section(name, |group|, shown, |group| - |shown|)
  }

  /** The report's content: the summary, the critical issues, one section per warning type, and whether all passed. */
  datatype Report = Report(critical: nat, warningCount: nat, compliant: bool, issues: seq<Issue>, sections: seq<Section>, allPassed: bool)

  /** `generate_report`, without its fixed text, time stamp and output file. */
  method GenerateReport(issues: seq<Issue>, warnings: seq<Warning>) returns (r: Report)
    ensures r.critical == |issues| && r.warningCount == |warnings| && r.issues == issues
    ensures r.compliant <==> issues == []
    ensures r.allPassed <==> issues == [] && warnings == []
    ensures |r.sections| == |TypeOrder(warnings)|
    ensures forall k :: 0 <= k < |r.sections| ==>
              r.sections[k] == SectionOf(TypeOrder(warnings)[k], Seqs.Filter(warnings, OfType(TypeOrder(warnings)[k])))
  {
    var sections: seq<Section> := [];
    if warnings != [] {
      var order, groups := GroupWarnings(warnings);
      sections := BuildSections(order, groups);
    }
    r := Report(|issues|, |warnings|, issues == [], issues, sections, issues == [] && warnings == []);
  }

  /** One section per type, in the order the types first appear. */
  method BuildSections(order: seq<string>, groups: map<string, seq<Warning>>) returns (sections: seq<Section>)
    requires forall t :: t in order ==> t in groups
    ensures |sections| == |order|
    ensures forall k :: 0 <= k < |order| ==> sections[k] == SectionOf(order[k], groups[order[k]])
  {
    sections := [];
    for k := 0 to |order|
      invariant |sections| == k
      invariant forall j :: 0 <= j < k ==> sections[j] == SectionOf(order[j], groups[order[j]])
    {
      sections := sections + [SectionOf(order[k], groups[order[k]])];
    }
  }

  /** Every warning is listed under its own type, and only there. */
  lemma EveryWarningGrouped(warnings: seq<Warning>, w: Warning)
    requires w in warnings
    ensures TypeName(w) in TypeOrder(warnings)
    ensures w in Seqs.Filter(warnings, OfType(TypeName(w)))
    ensures forall t :: t != TypeName(w) ==> w !in Seqs.Filter(warnings, OfType(t))
  {
    Seqs.MapMembers(warnings, TypeName, TypeName(w));
  }

  // ------------------------------------------------------ main

  function AllWarnings(data: seq<Entry>): seq<Warning>
  {
    TextWarnings(data) + DiagramWarnings(data) + Duplicates(ChapterTitles(data))
  }

  /** The exit rule: any critical issue fails, and with `--strict` so does any warning. */
  function ExitCode(issues: seq<Issue>, warnings: seq<Warning>, strict: bool): (code: int)
    ensures code == 0 || code == 1
    ensures code == 1 <==> issues != [] || (strict && warnings != [])
  {
    if |issues| > 0 then 1
    else if strict && |warnings| > 0 then 1
    else 0
  }

  /**
   * `main`, given the parsed data file (`None` when it is missing, which exits
   * 1), which diagram files exist, and `--strict`.
   */
  method RunMain(data: Option<seq<Entry>>, fileExists: string -> bool, strict: bool) returns (exitCode: int, report: Option<Report>)
    ensures data.None? ==> exitCode == 1 && report.None?
    ensures data.Some? ==> exitCode == ExitCode(DiagramIssues(data.value, fileExists), AllWarnings(data.value), strict)
    ensures data.Some? ==> report.Some? && report.value.issues == DiagramIssues(data.value, fileExists)
                           && report.value.warningCount == |AllWarnings(data.value)|
  {
    if data.None? {
      return 1, None;
    }
    var slides := data.value;
    var allIssues: seq<Issue> := [];
    var allWarnings: seq<Warning> := [];
    var textIssues, textWarnings := ValidateTextContent(slides);
    allIssues, allWarnings := allIssues + textIssues, allWarnings + textWarnings;
    var diagramIssues, diagramWarnings := ValidateDiagrams(slides, fileExists);
    allIssues, allWarnings := allIssues + diagramIssues, allWarnings + diagramWarnings;
    var accessibilityIssues, accessibilityWarnings := ValidateAccessibility(slides);
    allIssues, allWarnings := allIssues + accessibilityIssues, allWarnings + accessibilityWarnings;
    assert allIssues == DiagramIssues(slides, fileExists);
    var r := GenerateReport(allIssues, allWarnings);
    if |allIssues| > 0 {
      exitCode := 1;
    } else if strict && |allWarnings| > 0 {
      exitCode := 1;
    } else {
      exitCode := 0;
    }
    report := Some(r);
  }

  /** The run fails exactly when the data file is missing, some chapter's diagram is missing or lacks metadata, or `--strict` meets a warning. */
  lemma MainFailsIff(data: Option<seq<Entry>>, fileExists: string -> bool, strict: bool)
    requires data.Some?
    ensures ExitCode(DiagramIssues(data.value, fileExists), AllWarnings(data.value), strict) == 1 <==>
              (exists k :: 0 <= k < |data.value| && data.value[k].ChapterEntry? && data.value[k].chapter.diagramPath != ""
                 && (!fileExists(data.value[k].chapter.diagramPath) || data.value[k].chapter.metadata.None?))
              || (strict && AllWarnings(data.value) != [])
  {
    SomeIssueIff(data.value, fileExists);
  }
}
