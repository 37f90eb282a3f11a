/**
 * Chapter selection and preparation for the EPUB build: which chapter files
 * a build uses, the cached navigation list, path resolution under the docs
 * directory, and the clean-up of part introductions for formats other than
 * LaTeX.
 */
module BookBuild {
  import opened Wrappers
  import opened Str
  import Seqs
  import Paths
  import Navigation

  datatype BookError =
    | SeveralSelections
    | NavigationFailed(reason: Navigation.NavigationError)
    | ChapterNotFound(name: string)

  const SampleChapters: seq<string> :=
    ["part_a_foundations.md", "01_introduction.md", "02_fundamental_principles.md", "03_version_control.md"]
  const PartFilePrefix: string := "part_"
  const CoverPage: string := "00_front_cover.md"

  // ----------------------------------------------------- chapter selection

  /** Which list a build uses once the options have been checked. */
  datatype Selection = TooMany | Explicit(names: seq<string>) | Sample | FullBook

  predicate NotBlank(s: string) { !IsBlank(s) }

  /** `[c.strip() for c in chapters if c.strip()]`. */
  function TrimChapters(chapters: seq<string>): (r: seq<string>)
  {
    Seqs.Map(Seqs.Filter(chapters, NotBlank), Strip)
  }

  /** An explicit list keeps its non-blank names, trimmed, in the order given. */
  lemma TrimChaptersOrder(chapters: seq<string>)
    ensures var kept := Seqs.Filter(chapters, NotBlank);
      |TrimChapters(chapters)| == |kept| && forall k :: 0 <= k < |kept| ==> TrimChapters(chapters)[k] == Strip(kept[k])
    ensures forall k :: 0 <= k < |TrimChapters(chapters)| ==> TrimChapters(chapters)[k] != [] && Strip(TrimChapters(chapters)[k]) == TrimChapters(chapters)[k]
  {
    var kept := Seqs.Filter(chapters, NotBlank);
    forall k | 0 <= k < |kept| ensures TrimChapters(chapters)[k] == Strip(kept[k]) && Strip(kept[k]) != [] && Strip(Strip(kept[k])) == Strip(kept[k]) {
      Seqs.MapAt(kept, Strip, k);
      assert kept[k] in Seqs.Filter(chapters, NotBlank);
      StripOfStripped(kept[k]);
    }
  }

  /** The option check of `determine_chapter_list` and the branch it takes. */
  function Select(buildAll: bool, sample: bool, chapters: seq<string>): (r: Selection)
    ensures r == TooMany <==> (buildAll && sample) || (buildAll && chapters != []) || (sample && chapters != [])
    ensures r.Explicit? <==> r != TooMany && chapters != []
    ensures r == Sample <==> r != TooMany && chapters == [] && sample
  {
    var chosen := (if buildAll then 1 else 0) + (if sample then 1 else 0) + (if chapters != [] then 1 else 0);
    if chosen > 1 then TooMany
    else if chapters != [] then Explicit(TrimChapters(chapters))
    else if sample then Sample
    else FullBook
  }

  /** `run_cli`: `--all` is implied when neither `--sample` nor `--chapters` is given. */
  function CliSelection(all: bool, sample: bool, chapters: seq<string>): Selection
  {
    Select(all || !(sample || chapters != []), sample, chapters)
  }

  /** Without sample or explicit chapters the command line builds the full book. */
  lemma CliDefaultsToFullBook(all: bool, chapters: seq<string>)
    requires chapters == []
    ensures CliSelection(all, false, chapters) == FullBook
  {
  }

  /** The option names only one of sample or explicit chapters when `--all` is not given. */
  lemma CliSingleChoice(sample: bool, chapters: seq<string>)
    requires !(sample && chapters != [])
    ensures CliSelection(false, sample, chapters) != TooMany
  {
  }

  /**
   * `load_full_chapter_filenames`: the navigation's book files, computed on
   * the first successful call and served from the cache afterwards.
   */
  class ChapterListCache {
    var cache: Option<seq<string>>

    constructor()
      ensures cache == None
    {
      cache := None;
    }

    /** `files` is what `get_book_build_files` would return now; a cached list wins over it. */
    method FullChapterList(files: Result<seq<string>, Navigation.NavigationError>)
      returns (r: Result<seq<string>, BookError>)
      modifies this
      ensures old(cache).Some? ==> r == Ok(old(cache).value) && cache == old(cache)
      ensures old(cache).None? && files.Ok? ==> r == Ok(files.value) && cache == Some(files.value)
      ensures old(cache).None? && files.Err? ==> r == Err(NavigationFailed(files.error)) && cache == None
    {
      if cache.None? {
        if files.Err? {
          return Err(NavigationFailed(files.error));
        }
        cache := Some(files.value);
      }
      r := Ok(cache.value);
    }

    /** `determine_chapter_list`: the navigation is consulted only for a full build. */
    method DetermineChapterList(buildAll: bool, sample: bool, chapters: seq<string>,
                                files: Result<seq<string>, Navigation.NavigationError>)
      returns (r: Result<seq<string>, BookError>)
      modifies this
      ensures Select(buildAll, sample, chapters) == TooMany ==> r == Err(SeveralSelections) && cache == old(cache)
      ensures Select(buildAll, sample, chapters).Explicit? ==> r == Ok(TrimChapters(chapters)) && cache == old(cache)
      ensures Select(buildAll, sample, chapters) == Sample ==> r == Ok(SampleChapters) && cache == old(cache)
      ensures Select(buildAll, sample, chapters) == FullBook && old(cache).Some? ==> r == Ok(old(cache).value)
      ensures Select(buildAll, sample, chapters) == FullBook && old(cache).None? ==>
        r == (if files.Ok? then Ok(files.value) else Err(NavigationFailed(files.error)))
    {
      var selection := Select(buildAll, sample, chapters);
      match selection
      case TooMany => r := Err(SeveralSelections);
      case Explicit(names) => r := Ok(names);
      case Sample => r := Ok(SampleChapters);
      case FullBook => r := FullChapterList(files);
    }
  }

  // ------------------------------------------------------ path resolution

  /** `docs / name`; an absolute name replaces the directory. */
  function Candidate(docs: string, name: string): string
  {
    if StartsWith(name, "/") then name else docs + "/" + name
  }

  function Resolver(docs: string, present: string -> bool): string -> Result<string, BookError>
  {
    name => if present(Candidate(docs, name)) then Ok(Candidate(docs, name)) else Err(ChapterNotFound(name))
  }

  /** `resolve_chapter_paths`: the paths in the order given, failing at the first one that does not exist. */
  method ResolveChapterPaths(names: seq<string>, docs: string, present: string -> bool)
    returns (r: Result<seq<string>, BookError>)
    ensures r == Seqs.Collect(names, Resolver(docs, present))
  {
    var resolve := Resolver(docs, present);
    var paths: seq<string> := [];
    var i := 0;
    while i < |names|
      invariant i <= |names|
      invariant Seqs.Collect(names[..i], resolve) == Ok(paths)
    {
      Seqs.CollectStep(names, resolve, i, paths);
      var candidate := Candidate(docs, names[i]);
      if !present(candidate) {
        Seqs.CollectErrSticks(names, resolve, i + 1);
        return Err(ChapterNotFound(names[i]));
      }
      paths := paths + [candidate];
      i := i + 1;
    }
    assert names[..i] == names;
    return Ok(paths);
  }

  /** Resolution succeeds with one path per name, in order, or names the first name whose file is missing. */
  lemma ResolvedPaths(names: seq<string>, docs: string, present: string -> bool)
    ensures var r := Seqs.Collect(names, Resolver(docs, present));
      (r.Ok? <==> forall k :: 0 <= k < |names| ==> present(Candidate(docs, names[k])))
      && (r.Ok? ==> |r.value| == |names| && forall k :: 0 <= k < |names| ==> r.value[k] == Candidate(docs, names[k]))
      && (r.Err? ==> exists k :: 0 <= k < |names| && r.error == ChapterNotFound(names[k])
                      && !present(Candidate(docs, names[k]))
                      && forall j :: 0 <= j < k ==> present(Candidate(docs, names[j])))
  {
    var f := Resolver(docs, present);
    Seqs.CollectFails(names, f);
    assert forall k :: 0 <= k < |names| ==> (f(names[k]).Err? <==> !present(Candidate(docs, names[k])));
  }

  // ----------------------------------------------------- part clean-up

  /** Lines that only drive the LaTeX build. */
  predicate IsLatexHelper(line: string)
  {
    StartsWith(line, "\\cleardoublepage") || StartsWith(line, "\\part{") || StartsWith(line, "\\setbookpart")
  }

  predicate KeptLine(line: string) { !IsLatexHelper(line) }

  /** The lines with leading blank lines removed. */
  function DropBlankFront(ls: seq<string>): (r: seq<string>)
    ensures |r| <= |ls| && r == ls[|ls| - |r|..]
    ensures r == [] || !IsBlank(r[0])
    ensures forall k :: 0 <= k < |ls| - |r| ==> IsBlank(ls[k])
  {
    if ls != [] && IsBlank(ls[0]) then
      var r := DropBlankFront(ls[1..]);
      assert ls[1..][|ls| - 1 - |r|..] == ls[|ls| - |r|..];
      assert forall k :: 1 <= k < |ls| - |r| ==> ls[k] == ls[1..][k - 1];
      r
    else ls
  }

  /** The lines with trailing blank lines removed. */
  function DropBlankBack(ls: seq<string>): (r: seq<string>)
    ensures |r| <= |ls| && r == ls[..|r|]
    ensures r == [] || !IsBlank(r[|r| - 1])
    ensures forall k :: |r| <= k < |ls| ==> IsBlank(ls[k])
  {
    if ls != [] && IsBlank(ls[|ls| - 1]) then
      var r := DropBlankBack(ls[..|ls| - 1]);
      assert ls[..|ls| - 1][..|r|] == ls[..|r|];
      r
    else ls
  }

  /** The lines `sanitise_part_markdown` keeps: no LaTeX helper, no blank line at either end. */
  function SanitisedLines(content: string): seq<string>
  {
    DropBlankBack(DropBlankFront(Seqs.Filter(SplitLines(content), KeptLine)))
  }

  function SanitisedText(content: string): string
  {
    Join(SanitisedLines(content), "\n")
  }

  /** `sanitise_part_markdown`: the filtering loop, then the two popping loops, then the join. */
  method SanitisePartMarkdown(content: string) returns (r: string)
    ensures r == SanitisedText(content)
  {
    var cleaned := DropLatexHelpers(SplitLines(content));
    cleaned := PopBlankFront(cleaned);
    cleaned := PopBlankBack(cleaned);
    r := Join(cleaned, "\n");
  }

  /** The filtering loop: every line that is not a LaTeX helper, in order. */
  method DropLatexHelpers(lines: seq<string>) returns (cleaned: seq<string>)
    ensures cleaned == Seqs.Filter(lines, KeptLine)
  {
    cleaned := [];
    var i := 0;
    while i < |lines|
      invariant i <= |lines|
      invariant cleaned == Seqs.Filter(lines[..i], KeptLine)
    {
      Seqs.FilterSnoc(lines[..i], lines[i], KeptLine);
      assert lines[..i + 1] == lines[..i] + [lines[i]];
      if KeptLine(lines[i]) {
        cleaned := cleaned + [lines[i]];
      }
      i := i + 1;
    }
    assert lines[..i] == lines;
  }

  /** `while cleaned and not cleaned[0].strip(): cleaned.pop(0)`. */
  method PopBlankFront(ls: seq<string>) returns (r: seq<string>)
    ensures r == DropBlankFront(ls)
  {
    r := ls;
    while r != [] && IsBlank(r[0])
      invariant DropBlankFront(r) == DropBlankFront(ls)
      decreases |r|
    {
      r := r[1..];
    }
  }

  /** `while cleaned and not cleaned[-1].strip(): cleaned.pop()`. */
  method PopBlankBack(ls: seq<string>) returns (r: seq<string>)
    ensures r == DropBlankBack(ls)
  {
    r := ls;
    while r != [] && IsBlank(r[|r| - 1])
      invariant DropBlankBack(r) == DropBlankBack(ls)
      decreases |r|
    {
      r := r[..|r| - 1];
    }
  }

  /** The kept lines are the non-helper lines in order, and neither end is blank. */
  lemma SanitisedShape(content: string)
    ensures var ls := SanitisedLines(content);
      (ls == [] || (!IsBlank(ls[0]) && !IsBlank(ls[|ls| - 1])))
      && forall k :: 0 <= k < |ls| ==> KeptLine(ls[k]) && NoLineBreak(ls[k])
  {
    var all := SplitLines(content);
    var kept := Seqs.Filter(all, KeptLine);
    var front := DropBlankFront(kept);
    var ls := DropBlankBack(front);
    forall k | 0 <= k < |ls| ensures KeptLine(ls[k]) && NoLineBreak(ls[k]) {
      var j := |kept| - |front| + k;
      assert ls[k] == front[k] == kept[j];
      assert kept[j] in kept;
      assert kept[j] in all;
    }
  }

  /** Sanitising an already sanitised part changes nothing. */
  lemma SanitiseIdempotent(content: string)
    ensures SanitisedText(SanitisedText(content)) == SanitisedText(content)
  {
    var ls := SanitisedLines(content);
    SanitisedShape(content);
    if ls != [] {
      assert !IsBlank(ls[|ls| - 1]);
    }
    SplitLinesOfJoin(ls);
    Seqs.FilterAll(ls, KeptLine);
    assert DropBlankFront(ls) == ls;
    assert DropBlankBack(ls) == ls;
  }

  // ------------------------------------------- non-LaTeX chapter paths

  /** What preparing one chapter contributes: a sanitised copy of a part, nothing for an empty part, or the path itself. */
  datatype Prepared = Prepared(paths: seq<string>, writes: seq<(string, string)>)

  function PrepareOne(path: string, read: string -> string, tempDir: string): Prepared
  {
    if StartsWith(Paths.Name(path), PartFilePrefix) then
      var sanitised := SanitisedText(read(path));
      if !IsBlank(sanitised) then
        var destination := tempDir + "/" + Paths.Name(path);
        Prepared([destination], [(destination, sanitised + "\n")])
      else Prepared([], [])
    else Prepared([path], [])
  }

  function PreparedPaths(paths: seq<string>, read: string -> string, tempDir: string): seq<string>
  {
    if paths == [] then []
    else PreparedPaths(paths[..|paths| - 1], read, tempDir) + PrepareOne(paths[|paths| - 1], read, tempDir).paths
  }

  function PreparedWrites(paths: seq<string>, read: string -> string, tempDir: string): seq<(string, string)>
  {
    if paths == [] then []
    else PreparedWrites(paths[..|paths| - 1], read, tempDir) + PrepareOne(paths[|paths| - 1], read, tempDir).writes
  }

  /** The cover page goes first when it exists and is not listed yet. */
  function WithCover(prepared: seq<string>, cover: string, coverExists: bool): (r: seq<string>)
    ensures coverExists && cover !in prepared ==> r == [cover] + prepared
    ensures !(coverExists && cover !in prepared) ==> r == prepared
    ensures multiset(r) == multiset(prepared) + if coverExists && cover !in prepared then multiset{cover} else multiset{}
    ensures cover in r <==> cover in prepared || coverExists
    ensures |prepared| <= |r| && r[|r| - |prepared|..] == prepared
  {
    if coverExists && cover !in prepared then [cover] + prepared else prepared
  }

  /** One more chapter path prepared. */
  lemma PrepareStep(paths: seq<string>, i: nat, read: string -> string, tempDir: string)
    requires i < |paths|
    ensures PreparedPaths(paths[..i + 1], read, tempDir) == PreparedPaths(paths[..i], read, tempDir) + PrepareOne(paths[i], read, tempDir).paths
    ensures PreparedWrites(paths[..i + 1], read, tempDir) == PreparedWrites(paths[..i], read, tempDir) + PrepareOne(paths[i], read, tempDir).writes
  {
    assert paths[..i + 1][..i] == paths[..i];
  }

  /** The loop body for one path: a part file is sanitised and written to `tempDir` unless blank. */
  method PrepareChapter(path: string, read: string -> string, tempDir: string) returns (one: Prepared)
    ensures one == PrepareOne(path, read, tempDir)
  {
    var name := Paths.Name(path);
    if StartsWith(name, PartFilePrefix) {
      var sanitised := SanitisePartMarkdown(read(path));
      if !IsBlank(sanitised) {
        var destination := tempDir + "/" + name;
        return Prepared([destination], [(destination, sanitised + "\n")]);
      }
      return Prepared([], []);
    }
    return Prepared([path], []);
  }

  /**
   * `prepare_non_latex_chapter_paths`: part files become sanitised copies in
   * `tempDir` (or vanish when blank), other paths stay, then the cover is
   * put in front.  Returns the paths and the files written; `coverExists`
   * says whether the cover page exists under `docs`.
   */
  method PrepareNonLatexChapterPaths(paths: seq<string>, read: string -> string, tempDir: string,
                                     docs: string, coverExists: bool)
    returns (prepared: seq<string>, writes: seq<(string, string)>)
    ensures prepared == WithCover(PreparedPaths(paths, read, tempDir), docs + "/" + CoverPage, coverExists)
    ensures writes == PreparedWrites(paths, read, tempDir)
  {
    prepared := [];
    writes := [];
    var i := 0;
    while i < |paths|
      invariant i <= |paths|
      invariant prepared == PreparedPaths(paths[..i], read, tempDir)
      invariant writes == PreparedWrites(paths[..i], read, tempDir)
    {
      PrepareStep(paths, i, read, tempDir);
      var one := PrepareChapter(paths[i], read, tempDir);
      prepared := prepared + one.paths;
      writes := writes + one.writes;
      i := i + 1;
    }
    assert paths[..i] == paths;
    var cover := docs + "/" + CoverPage;
    if coverExists && cover !in prepared {
      prepared := [cover] + prepared;
    }
  }

  /** Paths other than part files are kept in order: with no part files the list is unchanged. */
  lemma {:induction false} NoPartsKept(paths: seq<string>, read: string -> string, tempDir: string)
    requires forall k :: 0 <= k < |paths| ==> !StartsWith(Paths.Name(paths[k]), PartFilePrefix)
    ensures PreparedPaths(paths, read, tempDir) == paths
    ensures PreparedWrites(paths, read, tempDir) == []
  {
    if paths != [] {
      var last := paths[|paths| - 1];
      NoPartsKept(paths[..|paths| - 1], read, tempDir);
      assert !StartsWith(Paths.Name(last), PartFilePrefix);
      Seqs.InitLast(paths);
    }
  }

  /** Every prepared path is an original non-part path or a copy in the temporary directory of a part with content. */
  lemma {:induction false} PreparedOrigins(paths: seq<string>, read: string -> string, tempDir: string, p: string)
    requires p in PreparedPaths(paths, read, tempDir)
    ensures (p in paths && !StartsWith(Paths.Name(p), PartFilePrefix))
      || exists k :: 0 <= k < |paths| && StartsWith(Paths.Name(paths[k]), PartFilePrefix)
           && p == tempDir + "/" + Paths.Name(paths[k]) && !IsBlank(SanitisedText(read(paths[k])))
  {
    var init := paths[..|paths| - 1];
    var last := paths[|paths| - 1];
    if p in PreparedPaths(init, read, tempDir) {
      PreparedOrigins(init, read, tempDir, p);
      if !(p in init && !StartsWith(Paths.Name(p), PartFilePrefix)) {
        var k :| 0 <= k < |init| && StartsWith(Paths.Name(init[k]), PartFilePrefix)
          && p == tempDir + "/" + Paths.Name(init[k]) && !IsBlank(SanitisedText(read(init[k])));
        assert paths[k] == init[k];
      }
    } else {
      assert p in PrepareOne(last, read, tempDir).paths;
    }
  }
}
