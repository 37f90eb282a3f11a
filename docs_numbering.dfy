/**
 * The chapter-numbering validator for `docs/`.  Chapter files are named
 * digits, an optional lowercase letter, an optional `_...` part and `.md`.
 * The distinct numbers must form an unbroken run.  For each number, at most
 * one file may be unlettered, and the lettered files must continue the run of
 * positions 0, 1, 2, ... in which the unlettered file is position 0 and `a`
 * is position 0 when there is no unlettered file.
 */
module DocsNumbering {
  import opened Wrappers
  import opened Str
  import opened Sorted
  import opened Seqs

  /** A directory entry: its name and whether it is a regular file. */
  datatype PathInfo = PathInfo(name: string, isFile: bool)

  /** `ChapterEntry`: the number and suffix read from a chapter file name. */
  datatype ChapterEntry = ChapterEntry(number: nat, suffix: string, path: PathInfo)

  /** The problems reported, one constructor per message of the script. */
  datatype Issue =
    | NoChapters
    | Gap(expected: nat, found: nat)
    | DuplicateBase(number: nat, files: seq<string>)
    | InvalidSuffix(suffix: string, file: string)
    | DuplicateSuffix(number: nat, suffix: string, file: string)
    | BaseWithA(number: nat, file: string)
    | MissingSuffixes(number: nat, positions: seq<nat>)
    | NotContiguous(number: nat, accepted: seq<nat>, wanted: seq<nat>)

  // ---------------------------------------------------------------- names

  /**
   * The part `(?:_.*)?\.md$` of `NUMBERED_PATTERN`: `$` also matches before a
   * final newline, and `.` matches anything but a newline.
   */
  predicate NumberedTail(rest: string)
  {
    var t := if EndsWith(rest, "\n") then rest[..|rest| - 1] else rest;
    t == ".md" || (|t| >= 4 && t[0] == '_' && EndsWith(t, ".md") && '\n' !in t)
  }

  /** The group `([a-z]?)`. */
  predicate LetterSuffix(s: string) { s == [] || (|s| == 1 && IsAsciiLower(s[0])) }

  /** What `([a-z]?)` takes at the start of `after`. */
  function SuffixOf(after: string): (s: string)
    ensures LetterSuffix(s)
    ensures s != [] ==> 0 < |after| && s == [after[0]]
  {
    if after != [] && IsAsciiLower(after[0]) then [after[0]] else []
  }

  /** The rest of the match once the digit run `digits` is taken. */
  function MatchAfterDigits(digits: string, after: string): Option<(nat, string)>
    requires AllDigits(digits)
  {
    var sfx := SuffixOf(after);
    if NumberedTail(after[|sfx|..]) then Some((DigitsValue(digits), sfx)) else None
  }

  /** `NUMBERED_PATTERN.match(name)`: the chapter number and the suffix, or None. */
  function NumberedName(name: string): Option<(nat, string)>
  {
    var n := Span(name, IsDigit);
    if n == 0 then None
    else
      assert AllDigits(name[..n]);
      MatchAfterDigits(name[..n], name[n..])
  }

  /** A valid tail starts with neither a digit nor a lowercase letter. */
  lemma TailStart(rest: string)
    requires NumberedTail(rest)
    ensures rest != [] && !IsDigit(rest[0]) && !IsAsciiLower(rest[0])
  {
    var t := if EndsWith(rest, "\n") then rest[..|rest| - 1] else rest;
    assert t != [] && t[0] == rest[0];
    if t != ".md" { assert t[0] == '_'; }
  }

  /** After the digits come the suffix and a valid tail, so `([a-z]?)` takes exactly the suffix. */
  lemma MatchAfterDigitsIs(digits: string, suffix: string, rest: string)
    requires AllDigits(digits) && LetterSuffix(suffix) && NumberedTail(rest)
    ensures MatchAfterDigits(digits, suffix + rest) == Some((DigitsValue(digits), suffix))
  {
    TailStart(rest);
    var after := suffix + rest;
    assert after[0] == if suffix == [] then rest[0] else suffix[0];
    assert SuffixOf(after) == suffix;
    assert after[|suffix|..] == rest;
  }

  /** The match once the digit run is known to end at `n`. */
  lemma NumberedNameAt(name: string, n: nat, suffix: string, rest: string)
    requires 0 < n == Span(name, IsDigit) && n <= |name|
    requires name[n..] == suffix + rest && LetterSuffix(suffix) && NumberedTail(rest)
    ensures AllDigits(name[..n])
    ensures NumberedName(name) == Some((DigitsValue(name[..n]), suffix))
  {
    assert AllDigits(name[..n]);
    MatchAfterDigitsIs(name[..n], suffix, rest);
  }

  /** Every name made of digits, a `[a-z]?` suffix and a valid tail matches, with that number and suffix. */
  lemma NumberedNameComplete(digits: string, suffix: string, rest: string)
    requires digits != [] && AllDigits(digits) && LetterSuffix(suffix) && NumberedTail(rest)
    ensures NumberedName(digits + suffix + rest) == Some((DigitsValue(digits), suffix))
  {
    var name := digits + suffix + rest;
    TailStart(rest);
    var after := suffix + rest;
    assert name == digits + after;
    SpanOfPrefix(digits, after, IsDigit);
    assert name[..|digits|] == digits && name[|digits|..] == after;
    NumberedNameAt(name, |digits|, suffix, rest);
  }

  /** A name that matches is digits, then the suffix, then a valid tail. */
  lemma NumberedNameSound(name: string)
    requires NumberedName(name).Some?
    ensures exists digits, rest :: (name == digits + NumberedName(name).value.1 + rest
      && digits != [] && AllDigits(digits) && DigitsValue(digits) == NumberedName(name).value.0
      && LetterSuffix(NumberedName(name).value.1) && NumberedTail(rest))
  {
    var k := Span(name, IsDigit);
    assert AllDigits(name[..k]);
    SplitAfterDigits(name[..k], name[k..], name);
  }

  /** The witnesses of `NumberedNameSound`, taken apart from the digit run. */
  lemma SplitAfterDigits(digits: string, after: string, name: string)
    requires name == digits + after && digits != [] && AllDigits(digits)
    requires MatchAfterDigits(digits, after).Some?
    ensures var sfx := SuffixOf(after);
      name == digits + sfx + after[|sfx|..] && NumberedTail(after[|sfx|..])
  {
    var sfx := SuffixOf(after);
    assert after == sfx + after[|sfx|..];
  }

  /** The entry a directory entry contributes: regular files whose name matches. */
  function EntryOf(p: PathInfo): Option<ChapterEntry>
  {
    if !p.isFile then None
    else match NumberedName(p.name)
      case None => None
      case Some((n, s)) => Some(ChapterEntry(n, s, p))
  }

  /** The chapter entries of a directory listing, in listing order. */
  function NumberedChapters(paths: seq<PathInfo>): seq<ChapterEntry>
  {
    FilterMap(paths, EntryOf)
  }

  /** Exactly the regular files with a matching name are collected. */
  lemma NumberedChaptersMembers(paths: seq<PathInfo>, e: ChapterEntry)
    ensures e in NumberedChapters(paths) <==> exists p :: p in paths && EntryOf(p) == Some(e)
  {
    FilterMapMembers(paths, EntryOf, e);
  }

  /** `find_numbered_chapters`. */
  method FindNumberedChapters(paths: seq<PathInfo>) returns (entries: seq<ChapterEntry>)
    ensures entries == NumberedChapters(paths)
  {
    entries := [];
    for i := 0 to |paths|
      invariant entries == NumberedChapters(paths[..i])
    {
      assert paths[..i + 1][..i] == paths[..i];
      var p := paths[i];
      if p.isFile {
        var m := NumberedName(p.name);
        if m.Some? {
          entries := entries + [ChapterEntry(m.value.0, m.value.1, p)];
        }
      }
    }
    assert paths[..|paths|] == paths;
  }

  /** `ChapterEntry.identifier`, such as `15` or `26b`. */
  function Identifier(e: ChapterEntry): string
  {
    if e.suffix != [] then NatToString(e.number) + e.suffix else NatToString(e.number)
  }

  /** Entries with a `[a-z]?` suffix are told apart by their identifiers. */
  lemma IdentifierInjective(a: ChapterEntry, b: ChapterEntry)
    requires LetterSuffix(a.suffix) && LetterSuffix(b.suffix)
    requires Identifier(a) == Identifier(b)
    ensures a.number == b.number && a.suffix == b.suffix
  {
    var da, db := NatToString(a.number), NatToString(b.number);
    assert Identifier(a) == da + a.suffix;
    assert Identifier(b) == db + b.suffix;
    SpanOfPrefix(da, a.suffix, IsDigit);
    SpanOfPrefix(db, b.suffix, IsDigit);
    assert da == Identifier(a)[..|da|];
    assert db == Identifier(b)[..|db|];
    DigitsValueOfNatToString(a.number);
    DigitsValueOfNatToString(b.number);
  }

  // ---------------------------------------------------------- contiguity

  function Numbers(entries: seq<ChapterEntry>): (ns: seq<nat>)
    ensures |ns| == |entries|
    ensures forall i :: 0 <= i < |entries| ==> ns[i] == entries[i].number
  {
    seq(|entries|, i requires 0 <= i < |entries| => entries[i].number)
  }

  /** One `Gap` for every adjacent pair of `ns` that is not consecutive, in order. */
  function Gaps(ns: seq<nat>): seq<Issue>
  {
    if |ns| < 2 then []
    else
      var k := |ns| - 1;
      Gaps(ns[..k]) + (if ns[k] != ns[k - 1] + 1 then [Gap(ns[k - 1] + 1, ns[k])] else [])
  }

  /** The issues `check_contiguous_numbers` reports. */
  function ContiguityIssues(entries: seq<ChapterEntry>): seq<Issue>
  {
    var ns := SortedSet(Numbers(entries));
    if ns == [] then [NoChapters] else Gaps(ns)
  }

  /** `check_contiguous_numbers`: the `expected` counter resynchronises after each gap. */
  method CheckContiguousNumbers(entries: seq<ChapterEntry>) returns (issues: seq<Issue>)
    ensures issues == ContiguityIssues(entries)
  {
    var ns := SortedSet(Numbers(entries));
    if ns == [] {
      return [NoChapters];
    }
    issues := [];
    var expected := ns[0];
    for i := 0 to |ns|
      invariant issues == Gaps(ns[..i])
      invariant expected == if i == 0 then ns[0] else ns[i - 1] + 1
    {
      assert ns[..i + 1][..i] == ns[..i];
      if ns[i] != expected {
        issues := issues + [Gap(expected, ns[i])];
        expected := ns[i];
      }
      expected := expected + 1;
    }
    assert ns[..|ns|] == ns;
  }

  predicate Consecutive(ns: seq<nat>) { forall k :: 0 < k < |ns| ==> ns[k] == ns[k - 1] + 1 }

  lemma {:induction false} GapsEmptyIff(ns: seq<nat>)
    ensures Gaps(ns) == [] <==> Consecutive(ns)
  {
    if |ns| >= 2 {
      var k := |ns| - 1;
      GapsEmptyIff(ns[..k]);
      assert Consecutive(ns) <==> Consecutive(ns[..k]) && ns[k] == ns[k - 1] + 1 by {
        if Consecutive(ns[..k]) && ns[k] == ns[k - 1] + 1 {
          forall j | 0 < j < |ns| ensures ns[j] == ns[j - 1] + 1 {
            if j < k { assert ns[j] == ns[..k][j] && ns[j - 1] == ns[..k][j - 1]; }
          }
        }
      }
    }
  }

  /** Every gap issue names a missing number and the next present one. */
  lemma {:induction false} GapsMeaning(ns: seq<nat>, g: Issue)
    requires Increasing(ns) && g in Gaps(ns)
    ensures g.Gap? && g.expected < g.found && g.found in ns
    ensures forall v :: g.expected <= v < g.found ==> v !in ns
  {
    var k := |ns| - 1;
    assert Increasing(ns[..k]);
    if g in Gaps(ns[..k]) {
      GapsMeaning(ns[..k], g);
      assert g.found in ns[..k];
      var i :| 0 <= i < k && ns[..k][i] == g.found;
      forall v | g.expected <= v < g.found ensures v !in ns {
        forall j | 0 <= j < |ns| ensures ns[j] != v {
          if j == k {
            assert ns[i] < ns[k];
          } else {
            assert ns[j] in ns[..k];
          }
        }
      }
    } else {
      assert g == Gap(ns[k - 1] + 1, ns[k]);
      forall v | g.expected <= v < g.found ensures v !in ns {
        forall j | 0 <= j < |ns| ensures ns[j] != v {
          if j < k - 1 { assert ns[j] < ns[k - 1]; }
          if j > k - 1 { assert ns[j] >= ns[k]; }
        }
      }
    }
  }

  lemma {:induction false} ConsecutiveValues(ns: seq<nat>, k: nat)
    requires Consecutive(ns) && k < |ns|
    ensures ns[k] == ns[0] + k
  {
    if k > 0 {
      ConsecutiveValues(ns, k - 1);
    }
  }

  /** A strictly increasing list is consecutive iff it holds every value between its ends. */
  lemma ConsecutiveIffCovers(ns: seq<nat>)
    requires Increasing(ns) && ns != []
    ensures Consecutive(ns) <==> forall v :: ns[0] <= v <= ns[|ns| - 1] ==> v in ns
  {
    var last := |ns| - 1;
    if Consecutive(ns) {
      ConsecutiveValues(ns, last);
      forall v | ns[0] <= v <= ns[last] ensures v in ns {
        ConsecutiveValues(ns, v - ns[0]);
      }
    }
    if forall v :: ns[0] <= v <= ns[last] ==> v in ns {
      forall k | 0 < k < |ns| ensures ns[k] == ns[k - 1] + 1 {
        var v := ns[k - 1] + 1;
        assert ns[k - 1] < ns[k] <= ns[last];
        assert v in ns;
        var j :| 0 <= j < |ns| && ns[j] == v;
        assert ns[k - 1] < ns[j];
        assert j >= k;
        assert ns[k] <= ns[j];
      }
    }
  }

  /** An empty listing gives exactly the one "no chapters" issue, and only an empty one does. */
  lemma NoChaptersIff(entries: seq<ChapterEntry>)
    ensures ContiguityIssues(entries) == [NoChapters] <==> entries == []
  {
    var ns := SortedSet(Numbers(entries));
    if entries != [] {
      assert Numbers(entries)[0] in ns;
      if Gaps(ns) == [NoChapters] {
        GapsMeaning(ns, NoChapters);
      }
    }
  }

  /**
   * With at least one chapter, there is no issue iff every number between the
   * smallest and the largest chapter number is used by some chapter.
   */
  lemma ContiguousIff(entries: seq<ChapterEntry>)
    requires entries != []
    ensures var ns := SortedSet(Numbers(entries));
      ns != [] && (ContiguityIssues(entries) == [] <==> forall v :: ns[0] <= v <= ns[|ns| - 1] ==> v in Numbers(entries))
  {
    var ns := SortedSet(Numbers(entries));
    assert Numbers(entries)[0] in ns;
    GapsEmptyIff(ns);
    ConsecutiveIffCovers(ns);
  }

  // ------------------------------------------------------------- suffixes

  /** The entries of `entries` with number `n`, in order (`grouped[n]`). */
  function Group(entries: seq<ChapterEntry>, n: nat): seq<ChapterEntry>
  {
    Filter(entries, (e: ChapterEntry) => e.number == n)
  }

  /** The names of the unlettered entries of a group. */
  function BaseFiles(group: seq<ChapterEntry>): seq<string>
  {
    if group == [] then []
    else
      var e := group[|group| - 1];
      BaseFiles(group[..|group| - 1]) + (if e.suffix == [] then [e.path.name] else [])
  }

  /** `len(s) == 1 and s.isalpha() and s.islower()`. */
  predicate ValidLetter(s: string) { |s| == 1 && IsAlpha(s[0]) && IsLower(s[0]) }

  /** `ord(c) - ord("a")` for a lowercase letter. */
  function LetterIndex(c: char): nat
    requires IsLower(c)
  {
    c as int - 'a' as int
  }

  /** The variables of the suffix loop: the issues so far, `seen_letters` and `letter_indices`. */
  datatype SuffixScan = SuffixScan(issues: seq<Issue>, seen: set<string>, indices: seq<nat>)

  /** One pass of the suffix loop. */
  function ScanEntry(sc: SuffixScan, number: nat, hasBase: bool, e: ChapterEntry): SuffixScan
  {
    var sfx := e.suffix;
    if sfx == [] then sc
    else if !ValidLetter(sfx) then sc.(issues := sc.issues + [InvalidSuffix(sfx, e.path.name)])
    else if sfx in sc.seen then sc.(issues := sc.issues + [DuplicateSuffix(number, sfx, e.path.name)])
    else if hasBase && sfx == "a" then sc.(issues := sc.issues + [BaseWithA(number, e.path.name)])
    else SuffixScan(sc.issues, sc.seen + {sfx}, sc.indices + [LetterIndex(sfx[0])])
  }

  /** The suffix loop over a whole group. */
  function ScanSuffixes(group: seq<ChapterEntry>, number: nat, hasBase: bool): SuffixScan
  {
    if group == [] then SuffixScan([], {}, [])
    else ScanEntry(ScanSuffixes(group[..|group| - 1], number, hasBase), number, hasBase, group[|group| - 1])
  }

  /** Issues raised inside the suffix loop (never a missing or non-contiguous run). */
  predicate LoopIssue(i: Issue) { i.InvalidSuffix? || i.DuplicateSuffix? || i.BaseWithA? }

  function Suffixes(group: seq<ChapterEntry>): (r: seq<string>)
    ensures |r| == |group|
    ensures forall i :: 0 <= i < |group| ==> r[i] == group[i].suffix
  {
    seq(|group|, i requires 0 <= i < |group| => group[i].suffix)
  }

  /** The invariant of the suffix loop. */
  ghost predicate ScanOk(sc: SuffixScan, group: seq<ChapterEntry>, hasBase: bool)
  {
    && Distinct(sc.indices)
    && (hasBase ==> 0 !in sc.indices)
    && (forall s :: s in sc.seen <==> ValidLetter(s) && LetterIndex(s[0]) in sc.indices)
    && (forall s :: s in sc.seen <==> ValidLetter(s) && !(hasBase && s == "a") && s in Suffixes(group))
    && (forall i :: 0 <= i < |sc.issues| ==> LoopIssue(sc.issues[i]))
  }

  lemma ScanEntryOk(sc: SuffixScan, group: seq<ChapterEntry>, number: nat, hasBase: bool, e: ChapterEntry)
    requires ScanOk(sc, group, hasBase)
    ensures ScanOk(ScanEntry(sc, number, hasBase, e), group + [e], hasBase)
  {
    var sfx := e.suffix;
    assert Suffixes(group + [e]) == Suffixes(group) + [sfx];
    if sfx != [] && ValidLetter(sfx) && sfx !in sc.seen && !(hasBase && sfx == "a") {
      var x := LetterIndex(sfx[0]);
      assert sfx == [sfx[0]];
      assert x == 0 ==> sfx == "a";
      var nsc := ScanEntry(sc, number, hasBase, e);
      assert nsc.indices == sc.indices + [x];
      forall s ensures s in nsc.seen <==> ValidLetter(s) && LetterIndex(s[0]) in nsc.indices {
        if ValidLetter(s) && LetterIndex(s[0]) == x {
          assert s == [s[0]] && sfx == [sfx[0]];
        }
      }
    }
  }

  lemma {:induction false} ScanSuffixesOk(group: seq<ChapterEntry>, number: nat, hasBase: bool)
    ensures ScanOk(ScanSuffixes(group, number, hasBase), group, hasBase)
  {
    if group != [] {
      var init := group[..|group| - 1];
      ScanSuffixesOk(init, number, hasBase);
      ScanEntryOk(ScanSuffixes(init, number, hasBase), init, number, hasBase, group[|group| - 1]);
      assert init + [group[|group| - 1]] == group;
    }
  }

  /** The accepted positions in order: the base file at 0, then the letters. */
  function Accepted(indices: seq<nat>, hasBase: bool): seq<nat>
  {
    if hasBase then [0] + Sort(indices) else Sort(indices)
  }

  /** The positions of `expected` absent from `sequence` (the base position is never reported). */
  function MissingPositions(expected: seq<nat>, sequence: seq<nat>, hasBase: bool): seq<nat>
  {
    if expected == [] then []
    else
      var x := expected[|expected| - 1];
      MissingPositions(expected[..|expected| - 1], sequence, hasBase)
        + (if x !in sequence && !(hasBase && x == 0) then [x] else [])
  }

  /** `list(range(max + 1))` for the accepted run, or `[]` when nothing was accepted. */
  function ExpectedRun(sequence: seq<nat>): seq<nat>
  {
    if sequence != [] then Range(sequence[|sequence| - 1] + 1) else []
  }

  /** The final comparison of `check_suffix_rules`: the accepted run against 0..max. */
  function RunIssues(number: nat, sequence: seq<nat>, hasBase: bool): seq<Issue>
  {
    var expected := ExpectedRun(sequence);
    if sequence == expected then []
    else
      var missing := MissingPositions(expected, sequence, hasBase);
      [if missing != [] then MissingSuffixes(number, missing) else NotContiguous(number, sequence, expected)]
  }

  /** The issues `check_suffix_rules` reports for one number. */
  function GroupIssues(number: nat, group: seq<ChapterEntry>): seq<Issue>
  {
    var base := BaseFiles(group);
    if |base| > 1 then [DuplicateBase(number, base)]
    else
      var hasBase := |base| == 1;
      var sc := ScanSuffixes(group, number, hasBase);
      sc.issues + RunIssues(number, Accepted(sc.indices, hasBase), hasBase)
  }

  lemma {:induction false} MissingPositionsMembers(expected: seq<nat>, sequence: seq<nat>, hasBase: bool, x: nat)
    ensures x in MissingPositions(expected, sequence, hasBase) <==>
      x in expected && x !in sequence && !(hasBase && x == 0)
  {
    if expected != [] {
      var init := expected[..|expected| - 1];
      MissingPositionsMembers(init, sequence, hasBase, x);
      assert expected == init + [expected[|expected| - 1]];
    }
  }

  /** The accepted positions are strictly increasing, and 0 belongs to them when there is a base file. */
  lemma AcceptedIncreasing(sc: SuffixScan, group: seq<ChapterEntry>, hasBase: bool)
    requires ScanOk(sc, group, hasBase)
    ensures Increasing(Accepted(sc.indices, hasBase))
    ensures hasBase ==> 0 in Accepted(sc.indices, hasBase)
  {
    var t := Sort(sc.indices);
    if hasBase {
      forall j | 0 <= j < |t| ensures 0 < t[j] {
        assert t[j] in multiset(t);
        assert t[j] in multiset(sc.indices);
        assert t[j] in sc.indices;
      }
      IncreasingCons(0, t);
    }
  }

  /** An increasing run that holds 0 when there is a base file, but is not 0..max, misses some position. */
  lemma MissingNonEmpty(sequence: seq<nat>, hasBase: bool)
    requires Increasing(sequence) && sequence != []
    requires hasBase ==> 0 in sequence
    requires sequence != ExpectedRun(sequence)
    ensures MissingPositions(ExpectedRun(sequence), sequence, hasBase) != []
  {
    var top := sequence[|sequence| - 1];
    var expected := ExpectedRun(sequence);
    forall z | z in sequence ensures z in expected {
      var j :| 0 <= j < |sequence| && sequence[j] == z;
      assert j == |sequence| - 1 || sequence[j] < top;
    }
    if forall y :: y in sequence <==> y in expected {
      IncreasingUnique(sequence, expected);
      assert false;
    }
    var y :| !(y in sequence <==> y in expected);
    MissingPositionsMembers(expected, sequence, hasBase, y);
  }

  /**
   * The comparison adds an issue iff the accepted run is not 0..max, and that
   * issue lists exactly the positions below the maximum that no file takes,
   * never an empty list, so "not contiguous" is never reported.
   */
  lemma RunIssuesMeaning(number: nat, sequence: seq<nat>, hasBase: bool)
    requires Increasing(sequence)
    requires hasBase ==> 0 in sequence
    ensures RunIssues(number, sequence, hasBase) == [] <==> sequence == ExpectedRun(sequence)
    ensures sequence != ExpectedRun(sequence) ==>
      var missing := MissingPositions(ExpectedRun(sequence), sequence, hasBase);
      && RunIssues(number, sequence, hasBase) == [MissingSuffixes(number, missing)]
      && missing != []
      && forall x :: x in missing <==> x in ExpectedRun(sequence) && x !in sequence
  {
    if sequence != ExpectedRun(sequence) {
      assert sequence != [];
      MissingNonEmpty(sequence, hasBase);
      forall x ensures x in MissingPositions(ExpectedRun(sequence), sequence, hasBase) <==> x in ExpectedRun(sequence) && x !in sequence {
        MissingPositionsMembers(ExpectedRun(sequence), sequence, hasBase, x);
      }
    }
  }

  /**
   * For a number with at most one unlettered file, the issues are those of the
   * suffix loop, followed by one listing the missing positions exactly when the
   * accepted run is not 0..max.
   */
  lemma SuffixRunChecked(number: nat, group: seq<ChapterEntry>)
    requires |BaseFiles(group)| <= 1
    ensures var hasBase := |BaseFiles(group)| == 1;
      var sc := ScanSuffixes(group, number, hasBase);
      var sequence := Accepted(sc.indices, hasBase);
      && Increasing(sequence)
      && GroupIssues(number, group) == sc.issues + RunIssues(number, sequence, hasBase)
      && (RunIssues(number, sequence, hasBase) == [] <==> sequence == ExpectedRun(sequence))
      && (sequence != ExpectedRun(sequence) ==>
            RunIssues(number, sequence, hasBase) == [MissingSuffixes(number, MissingPositions(ExpectedRun(sequence), sequence, hasBase))])
  {
    var hasBase := |BaseFiles(group)| == 1;
    var sc := ScanSuffixes(group, number, hasBase);
    ScanFacts(group, number, hasBase);
    RunIssuesMeaning(number, Accepted(sc.indices, hasBase), hasBase);
  }

  /** The message about a non-contiguous run is never produced. */
  lemma NeverNotContiguous(number: nat, group: seq<ChapterEntry>)
    ensures forall i :: 0 <= i < |GroupIssues(number, group)| ==> !GroupIssues(number, group)[i].NotContiguous?
  {
    if |BaseFiles(group)| <= 1 {
      var hasBase := |BaseFiles(group)| == 1;
      var sc := ScanSuffixes(group, number, hasBase);
      SuffixRunChecked(number, group);
      NoNotContiguousIn(sc.issues + RunIssues(number, Accepted(sc.indices, hasBase), hasBase), group, number, hasBase);
    }
  }

  lemma NoNotContiguousIn(all: seq<Issue>, group: seq<ChapterEntry>, number: nat, hasBase: bool)
    requires var sc := ScanSuffixes(group, number, hasBase);
      all == sc.issues + RunIssues(number, Accepted(sc.indices, hasBase), hasBase)
    ensures forall i :: 0 <= i < |all| ==> !all[i].NotContiguous?
  {
    var sc := ScanSuffixes(group, number, hasBase);
    ScanFacts(group, number, hasBase);
    var sequence := Accepted(sc.indices, hasBase);
    RunIssuesMeaning(number, sequence, hasBase);
    var run := RunIssues(number, sequence, hasBase);
    forall i | 0 <= i < |all| ensures !all[i].NotContiguous? {
      if i < |sc.issues| {
        assert LoopIssue(sc.issues[i]);
      } else {
        assert all[i] == run[i - |sc.issues|];
      }
    }
  }

  /** What the suffix loop guarantees, without its invariant. */
  lemma ScanFacts(group: seq<ChapterEntry>, number: nat, hasBase: bool)
    ensures var sc := ScanSuffixes(group, number, hasBase);
      && (forall i :: 0 <= i < |sc.issues| ==> LoopIssue(sc.issues[i]))
      && Increasing(Accepted(sc.indices, hasBase))
      && (hasBase ==> 0 in Accepted(sc.indices, hasBase))
  {
    ScanSuffixesOk(group, number, hasBase);
    AcceptedIncreasing(ScanSuffixes(group, number, hasBase), group, hasBase);
  }

  /** The accepted letters are exactly the valid suffixes of the group, each once, `a` excluded under a base file. */
  lemma AcceptedLetters(number: nat, group: seq<ChapterEntry>, hasBase: bool)
    ensures var sc := ScanSuffixes(group, number, hasBase);
      Distinct(sc.indices)
      && (forall s :: s in sc.seen <==> ValidLetter(s) && !(hasBase && s == "a") && exists e :: e in group && e.suffix == s)
  {
    ScanSuffixesOk(group, number, hasBase);
  }

  /** The issues of all groups, by ascending number. */
  function SuffixIssuesOf(entries: seq<ChapterEntry>, ns: seq<nat>): seq<Issue>
  {
    if ns == [] then []
    else
      var k := |ns| - 1;
      SuffixIssuesOf(entries, ns[..k]) + GroupIssues(ns[k], Group(entries, ns[k]))
  }

  /** The issues `check_suffix_rules` reports. */
  function SuffixIssues(entries: seq<ChapterEntry>): seq<Issue>
  {
    SuffixIssuesOf(entries, SortedSet(Numbers(entries)))
  }

  /** `grouped.setdefault(entry.number, []).append(entry)` over all entries. */
  method GroupByNumber(entries: seq<ChapterEntry>) returns (grouped: map<nat, seq<ChapterEntry>>)
    ensures forall n :: n in grouped <==> n in Numbers(entries)
    ensures forall n :: n in grouped ==> grouped[n] == Group(entries, n)
  {
    grouped := map[];
    for i := 0 to |entries|
      invariant forall n :: n in grouped <==> n in Numbers(entries[..i])
      invariant forall n :: n in grouped ==> grouped[n] == Group(entries[..i], n)
    {
      var e := entries[i];
      assert entries[..i + 1][..i] == entries[..i];
      assert Numbers(entries[..i + 1]) == Numbers(entries[..i]) + [e.number];
      var old_group := if e.number in grouped then grouped[e.number] else [];
      grouped := grouped[e.number := old_group + [e]];
      forall n | n !in Numbers(entries[..i]) ensures Group(entries[..i], n) == [] {
        GroupOfAbsent(entries[..i], n);
      }
    }
    assert entries[..|entries|] == entries;
  }

  lemma {:induction false} GroupOfAbsent(entries: seq<ChapterEntry>, n: nat)
    requires n !in Numbers(entries)
    ensures Group(entries, n) == []
  {
    if entries != [] {
      var init := entries[..|entries| - 1];
      assert Numbers(entries) == Numbers(init) + [entries[|entries| - 1].number];
      GroupOfAbsent(init, n);
    }
  }

  /** The suffix loop of `check_suffix_rules` for one group. */
  method ScanGroup(number: nat, group: seq<ChapterEntry>, hasBase: bool)
    returns (issues: seq<Issue>, seen: set<string>, indices: seq<nat>)
    ensures SuffixScan(issues, seen, indices) == ScanSuffixes(group, number, hasBase)
  {
    seen := {};
    indices := [];
    issues := [];
    for i := 0 to |group|
      invariant SuffixScan(issues, seen, indices) == ScanSuffixes(group[..i], number, hasBase)
    {
      assert group[..i + 1][..i] == group[..i];
      var sfx := group[i].suffix;
      if sfx == [] {
        continue;
      }
      if !ValidLetter(sfx) {
        issues := issues + [InvalidSuffix(sfx, group[i].path.name)];
        continue;
      }
      if sfx in seen {
        issues := issues + [DuplicateSuffix(number, sfx, group[i].path.name)];
        continue;
      }
      if hasBase && sfx == "a" {
        issues := issues + [BaseWithA(number, group[i].path.name)];
        continue;
      }
      seen := seen + {sfx};
      indices := indices + [LetterIndex(sfx[0])];
    }
    assert group[..|group|] == group;
  }

  /** The loop over `expected_sequence` collecting the positions missing from `sequence`. */
  method FindMissing(expected: seq<nat>, sequence: seq<nat>, hasBase: bool) returns (missing: seq<nat>)
    ensures missing == MissingPositions(expected, sequence, hasBase)
  {
    missing := [];
    for j := 0 to |expected|
      invariant missing == MissingPositions(expected[..j], sequence, hasBase)
    {
      assert expected[..j + 1][..j] == expected[..j];
      var x := expected[j];
      if x !in sequence {
        if hasBase && x == 0 {
          continue;
        }
        missing := missing + [x];
      }
    }
    assert expected[..|expected|] == expected;
  }

  /** The checks of `check_suffix_rules` for one number. */
  method CheckGroup(number: nat, group: seq<ChapterEntry>) returns (issues: seq<Issue>)
    ensures issues == GroupIssues(number, group)
  {
    var base := BaseFiles(group);
    if |base| > 1 {
      return [DuplicateBase(number, base)];
    }
    var hasBase := |base| == 1;
    var seen, indices;
    issues, seen, indices := ScanGroup(number, group, hasBase);
    var sequence := Accepted(indices, hasBase);
    var expected := ExpectedRun(sequence);
    if sequence != expected {
      var missing := FindMissing(expected, sequence, hasBase);
      if missing != [] {
        issues := issues + [MissingSuffixes(number, missing)];
      } else {
        issues := issues + [NotContiguous(number, sequence, expected)];
      }
    }
  }

  /** `check_suffix_rules`: the groups in ascending order of number. */
  method CheckSuffixRules(entries: seq<ChapterEntry>) returns (issues: seq<Issue>)
    ensures issues == SuffixIssues(entries)
  {
    var grouped := GroupByNumber(entries);
    issues := CheckGroups(entries, grouped, SortedSet(Numbers(entries)));
  }

  /** `for number in sorted(grouped)`, each group checked in turn. */
  method CheckGroups(entries: seq<ChapterEntry>, grouped: map<nat, seq<ChapterEntry>>, ns: seq<nat>)
    returns (issues: seq<Issue>)
    requires forall n :: n in ns ==> n in grouped && grouped[n] == Group(entries, n)
    ensures issues == SuffixIssuesOf(entries, ns)
  {
    issues := [];
    for k := 0 to |ns|
      invariant issues == SuffixIssuesOf(entries, ns[..k])
    {
      issues := CheckNextGroup(entries, grouped, ns, k, issues);
    }
    assert ns[..|ns|] == ns;
  }

  /** One turn of the loop in `check_suffix_rules`: the issues of the `k`-th number appended. */
  method CheckNextGroup(entries: seq<ChapterEntry>, grouped: map<nat, seq<ChapterEntry>>, ns: seq<nat>, k: nat, issues: seq<Issue>)
    returns (r: seq<Issue>)
    requires k < |ns| && ns[k] in grouped && grouped[ns[k]] == Group(entries, ns[k])
    requires issues == SuffixIssuesOf(entries, ns[..k])
    ensures r == SuffixIssuesOf(entries, ns[..k + 1])
  {
    assert ns[..k + 1][..k] == ns[..k];
    var more := CheckGroup(ns[k], grouped[ns[k]]);
    r := issues + more;
  }

  // ----------------------------------------------------------------- main

  /** `DOCS_DIR.glob("*.md")`: the entries whose name ends in `.md`. */
  function MarkdownEntries(listing: seq<PathInfo>): seq<PathInfo>
  {
    Filter(listing, (p: PathInfo) => EndsWith(p.name, ".md"))
  }

  /** `main`: 1 when `docs/` is missing or either checker reports an issue, else 0. */
  method RunMain(docsExists: bool, listing: seq<PathInfo>) returns (code: int)
    ensures code == 0 || code == 1
    ensures code == 0 <==> (docsExists
      && ContiguityIssues(NumberedChapters(MarkdownEntries(listing))) == []
      && SuffixIssues(NumberedChapters(MarkdownEntries(listing))) == [])
  {
    if !docsExists {
      return 1;
    }
    var entries := FindNumberedChapters(MarkdownEntries(listing));
    var contiguity := CheckContiguousNumbers(entries);
    var suffixes := CheckSuffixRules(entries);
    var issues := contiguity + suffixes;
    code := if issues != [] then 1 else 0;
  }
}
