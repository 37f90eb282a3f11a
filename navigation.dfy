/**
 * The MkDocs navigation as the publishing tools read it: every file target
 * of a navigation tree, the markdown files of the Part and Appendices
 * sections that form the book, the chapter files among them, and the
 * checks made when the navigation is loaded.
 */
module Navigation {
  import opened Wrappers
  import opened Str
  import opened Values
  import Seqs
  import Paths

  datatype NavigationError =
    | ConfigNotFound
    | ConfigUnparsable
    | ConfigNotMapping
    | NavNotList
    | NoBookChapters

  // ------------------------------------------------------------- targets

  /** `_iter_targets`: the string leaves of a subtree, depth first, left to right. */
  function Targets(v: Value): seq<string>
    decreases v, 1
  {
    match v
    case VStr(s) => [s]
    case VList(items) => ItemTargets(items)
    case VDict(entries) => EntryTargets(entries)
    case _ => []
  }

  function ItemTargets(items: seq<Value>): seq<string>
    decreases items, 0
  {
    if items == [] then [] else Targets(items[0]) + ItemTargets(items[1..])
  }

  /** The targets under the values of a dictionary, in key order. */
  function EntryTargets(entries: seq<(string, Value)>): seq<string>
    decreases entries, 0
  {
    if entries == [] then []
    else
      var e := entries[0];
      assert e in entries && e.1 < e;
      Targets(e.1) + EntryTargets(entries[1..])
  }

  /** `x` is a string leaf somewhere under `v`: an independent description of the targets. */
  predicate HasLeaf(v: Value, x: string)
    decreases v
  {
    match v
    case VStr(s) => s == x
    case VList(items) => exists i :: 0 <= i < |items| && HasLeaf(items[i], x)
    case VDict(entries) => exists i :: 0 <= i < |entries| && HasLeaf(entries[i].1, x)
    case _ => false
  }

  /** The targets of a subtree are exactly its string leaves. */
  lemma {:induction false} TargetsIff(v: Value, x: string)
    ensures x in Targets(v) <==> HasLeaf(v, x)
    decreases v, 1
  {
    match v
    case VStr(s) =>
    case VList(items) => ItemTargetsIff(items, x);
    case VDict(entries) => EntryTargetsIff(entries, x);
    case _ =>
  }

  lemma {:induction false} ItemTargetsIff(items: seq<Value>, x: string)
    ensures x in ItemTargets(items) <==> exists i :: 0 <= i < |items| && HasLeaf(items[i], x)
    decreases items, 0
  {
    if items != [] {
      TargetsIff(items[0], x);
      ItemTargetsIff(items[1..], x);
      if exists i :: 0 <= i < |items| && HasLeaf(items[i], x) {
        var i :| 0 <= i < |items| && HasLeaf(items[i], x);
        if i > 0 { assert HasLeaf(items[1..][i - 1], x); }
      }
      if exists i :: 0 <= i < |items[1..]| && HasLeaf(items[1..][i], x) {
        var i :| 0 <= i < |items[1..]| && HasLeaf(items[1..][i], x);
        assert HasLeaf(items[i + 1], x);
      }
    }
  }

  lemma {:induction false} EntryTargetsIff(entries: seq<(string, Value)>, x: string)
    ensures x in EntryTargets(entries) <==> exists i :: 0 <= i < |entries| && HasLeaf(entries[i].1, x)
    decreases entries, 0
  {
    if entries != [] {
      var e := entries[0];
      assert e in entries && e.1 < e;
      TargetsIff(e.1, x);
      EntryTargetsIff(entries[1..], x);
      if exists i :: 0 <= i < |entries| && HasLeaf(entries[i].1, x) {
        var i :| 0 <= i < |entries| && HasLeaf(entries[i].1, x);
        if i > 0 { assert HasLeaf(entries[1..][i - 1].1, x); }
      }
      if exists i :: 0 <= i < |entries[1..]| && HasLeaf(entries[1..][i].1, x) {
        var i :| 0 <= i < |entries[1..]| && HasLeaf(entries[1..][i].1, x);
        assert HasLeaf(entries[i + 1].1, x);
      }
    }
  }

  /** The targets of a list are the targets of its first part followed by those of the rest. */
  lemma {:induction false} ItemTargetsAppend(a: seq<Value>, b: seq<Value>)
    ensures ItemTargets(a + b) == ItemTargets(a) + ItemTargets(b)
    decreases |a|
  {
    if a != [] {
      assert (a + b)[1..] == a[1..] + b;
      ItemTargetsAppend(a[1..], b);
    } else {
      assert a + b == b;
    }
  }

  /** Every string entry of a list is one of its targets, and scalars other than strings give none. */
  lemma {:induction false} StringItemsAreTargets(items: seq<Value>, k: nat)
    requires k < |items| && items[k].VStr?
    ensures items[k].s in ItemTargets(items)
    decreases k
  {
    if k > 0 {
      StringItemsAreTargets(items[1..], k - 1);
    }
  }

  lemma ScalarsHaveNoTargets(v: Value)
    requires v.VNone? || v.VBool? || v.VInt? || v.VFloat? || v.VOther?
    ensures Targets(v) == []
  {
  }

  /** `_is_markdown`: the lowercased suffix of the target is `.md`. */
  predicate IsMarkdown(target: string)
  {
    Lower(Paths.Suffix(target)) == ".md"
  }

  /** A target is markdown exactly when its last part ends in `.md` (any case) after at least one character. */
  lemma MarkdownIff(target: string)
    ensures IsMarkdown(target) <==> var n := Paths.Name(target); |n| >= 4 && Lower(n[|n| - 3..]) == ".md"
  {
    Paths.MarkdownSuffix(Paths.Name(target));
  }

  // ---------------------------------------------------------- book files

  /** A navigation entry `{title: [children]}` whose title starts with "Part " or is "Appendices". */
  predicate IsBookSection(entry: Value)
  {
    entry.VDict? && |entry.entries| == 1 && entry.entries[0].1.VList?
    && (StartsWith(entry.entries[0].0, "Part ") || entry.entries[0].0 == "Appendices")
  }

  /** `_collect_section_markdown` applied to a book section, nothing for any other entry. */
  function SectionFiles(entry: Value): (r: seq<string>)
    ensures forall x :: x in r <==> IsBookSection(entry) && x in Targets(entry.entries[0].1) && IsMarkdown(x)
  {
    if IsBookSection(entry) then Seqs.Filter(Targets(entry.entries[0].1), IsMarkdown) else []
  }

  /** The files of each entry in navigation order. */
  function BookFiles(nav: seq<Value>): seq<string>
  {
    Seqs.FlatMap(nav, SectionFiles)
  }

  /** The book files are exactly the markdown targets under the book sections. */
  lemma BookFilesMembers(nav: seq<Value>, x: string)
    ensures x in BookFiles(nav) <==>
      exists k :: 0 <= k < |nav| && IsBookSection(nav[k]) && x in Targets(nav[k].entries[0].1) && IsMarkdown(x)
  {
    Seqs.FlatMapMembers(nav, SectionFiles, x);
  }

  /** `get_book_build_files`: the section files appended entry by entry; none at all is an error. */
  method GetBookBuildFiles(nav: seq<Value>) returns (r: Result<seq<string>, NavigationError>)
    ensures BookFiles(nav) == [] ==> r == Err(NoBookChapters)
    ensures BookFiles(nav) != [] ==> r == Ok(BookFiles(nav))
  {
    var ordered: seq<string> := [];
    var i := 0;
    while i < |nav|
      invariant i <= |nav|
      invariant ordered == BookFiles(nav[..i])
    {
      assert nav[..i + 1][..i] == nav[..i];
      ordered := ordered + SectionFiles(nav[i]);
      i := i + 1;
    }
    assert nav[..i] == nav;
    if ordered == [] {
      return Err(NoBookChapters);
    }
    return Ok(ordered);
  }

  function BookBuildFiles(nav: seq<Value>): Result<seq<string>, NavigationError>
  {
    var files := BookFiles(nav);
    if files == [] then Err(NoBookChapters) else Ok(files)
  }

  /** A chapter file: its stem does not start with `part_`. */
  predicate IsChapterFile(name: string) { !StartsWith(Paths.Stem(name), "part_") }

  /** `get_whitepaper_chapter_files`: the book files other than part introductions, in order. */
  function WhitepaperChapterFiles(nav: seq<Value>): (r: Result<seq<string>, NavigationError>)
    ensures BookBuildFiles(nav).Err? ==> r == BookBuildFiles(nav)
    ensures r.Ok? ==> forall x :: x in r.value <==> x in BookFiles(nav) && IsChapterFile(x)
  {
    match BookBuildFiles(nav)
    case Err(e) => Err(e)
    case Ok(files) => Ok(Seqs.Filter(files, IsChapterFile))
  }

  /** `get_all_navigation_targets`: every target of the whole navigation. */
  function AllNavigationTargets(nav: seq<Value>): (r: seq<string>)
    ensures forall x :: x in r <==> exists k :: 0 <= k < |nav| && HasLeaf(nav[k], x)
    ensures forall k :: 0 <= k < |nav| && nav[k].VStr? ==> nav[k].s in r
  {
    forall x ensures x in ItemTargets(nav) <==> exists k :: 0 <= k < |nav| && HasLeaf(nav[k], x) {
      ItemTargetsIff(nav, x);
    }
    forall k | 0 <= k < |nav| && nav[k].VStr? ensures nav[k].s in ItemTargets(nav) {
      StringItemsAreTargets(nav, k);
    }
    assert Targets(VList(nav)) == ItemTargets(nav);
    Targets(VList(nav))
  }

  // ------------------------------------------------------------- loading

  /**
   * `load_navigation`: the configuration must exist, parse to a mapping and
   * hold a list under `nav`.  `parsed` is what the YAML loader gives back,
   * `None` when it fails.
   */
  function LoadNavigation(configFound: bool, parsed: Option<Value>): (r: Result<seq<Value>, NavigationError>)
    ensures r.Ok? <==> configFound && parsed.Some? && parsed.value.VDict?
                       && Get(parsed.value, "nav").Some? && Get(parsed.value, "nav").value.VList?
    ensures r.Ok? ==> VList(r.value) == Get(parsed.value, "nav").value
  {
    if !configFound then Err(ConfigNotFound)
    else if parsed.None? then Err(ConfigUnparsable)
    else if !parsed.value.VDict? then Err(ConfigNotMapping)
    else
      var nav := Get(parsed.value, "nav");
      if nav.None? || !nav.value.VList? then Err(NavNotList) else Ok(nav.value.items)
  }
}
