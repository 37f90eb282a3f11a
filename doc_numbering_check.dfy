/**
 * `scripts/check_doc_numbering.py`: the second numbering validator for `docs/`.
 * It accepts any run of letters as a suffix, reports gaps between chapter
 * numbers and repeated number+suffix keys, and checks that the letters used
 * with one number form a run.
 */
module DocNumberingCheck {
  import opened Wrappers
  import opened Str
  import opened Sorted
  import opened Seqs

  /** A file whose name matched `PATTERN`: its number, its lowercased suffix and its name. */
  datatype NumberedFile = NumberedFile(number: nat, suffix: string, name: string)

  /** The messages of the script, one constructor each; letters are given by their code points. */
  datatype Error =
    | Gap(previous: nat, next: nat)
    | DuplicateEntry(key: string, first: string, second: string)
    | DuplicateSuffix(number: nat)
    | MissingLabel(number: nat, expected: nat, found: nat)
    | LongSuffix(number: nat)

  /** `ord(letter)` on a suffix of several letters raises `TypeError`. */
  datatype Raised = OrdTypeError

  /** What `main` does: return an exit code, or stop with the uncaught `TypeError`. */
  datatype Outcome = Exit(code: int) | Crash

  // ------------------------------------------------------------- PATTERN

  /** `[a-z]` under `re.IGNORECASE`. */
  predicate IsAsciiLetter(c: char) { IsAsciiUpper(c) || IsAsciiLower(c) }

  predicate AllLetters(s: string) { forall i :: 0 <= i < |s| ==> IsAsciiLetter(s[i]) }

  /**
   * `.*\.md$` under `re.IGNORECASE`: `.` takes anything but a newline, `$` also
   * matches before a final newline, and `.md` may be in any case.
   */
  predicate MdTail(t: string)
  {
    var u := if EndsWith(t, "\n") then t[..|t| - 1] else t;
    |u| >= 3 && '\n' !in u && Lower(u[|u| - 3..]) == ".md"
  }

  /** The rest of the match once the digit run `digits` is taken: letters, `_`, then the tail. */
  function MatchAfterDigits(digits: string, after: string): Option<(nat, string)>
    requires AllDigits(digits)
  {
    var k := Span(after, IsAsciiLetter);
    if k < |after| && after[k] == '_' && MdTail(after[k + 1..]) then Some((DigitsValue(digits), Lower(after[..k])))
    else None
  }

  /**
   * `PATTERN.match(name)` with `int(number)` and `suffix.lower()`. Neither greedy
   * run can give back characters: the class after each is disjoint from it.
   */
  function MatchName(name: string): Option<(nat, string)>
  {
    var n := Span(name, IsDigit);
    if n == 0 then None
    else
      assert AllDigits(name[..n]);
      MatchAfterDigits(name[..n], name[n..])
  }

  lemma MatchAfterDigitsIs(digits: string, letters: string, tail: string)
    requires AllDigits(digits) && AllLetters(letters) && MdTail(tail)
    ensures MatchAfterDigits(digits, letters + "_" + tail) == Some((DigitsValue(digits), Lower(letters)))
  {
    var after := letters + ("_" + tail);
    assert letters + "_" + tail == after;
    SpanOfPrefix(letters, "_" + tail, IsAsciiLetter);
    assert after[|letters|] == '_';
    assert after[|letters| + 1..] == tail;
    assert after[..|letters|] == letters;
  }

  /** Every name made of digits, letters, `_` and a valid tail matches, with that number and the letters lowercased. */
  lemma MatchNameComplete(digits: string, letters: string, tail: string)
    requires digits != [] && AllDigits(digits) && AllLetters(letters) && MdTail(tail)
    ensures MatchName(digits + letters + "_" + tail) == Some((DigitsValue(digits), Lower(letters)))
  {
    var after := letters + "_" + tail;
    var name := digits + after;
    assert digits + letters + "_" + tail == name;
    assert after[0] == if letters == [] then '_' else letters[0];
    SpanOfPrefix(digits, after, IsDigit);
    assert name[..|digits|] == digits && name[|digits|..] == after;
    MatchAfterDigitsIs(digits, letters, tail);
  }

  /** A name that matches is digits, letters, `_` and a valid tail. */
  lemma MatchNameSound(name: string, v: (nat, string))
    requires MatchName(name) == Some(v)
    ensures exists digits, letters, tail :: Decomposes(name, v, digits, letters, tail)
  {
    var n := Span(name, IsDigit);
    var digits := name[..n];
    assert AllDigits(digits);
    assert MatchAfterDigits(digits, name[n..]) == Some(v);
    var letters, tail := MatchAfterDigitsSound(digits, name[n..]);
    SplitAt(name, n);
    Regroup(name, v, digits, name[n..], letters, tail);
  }

  lemma SplitAt(s: string, n: nat)
    requires n <= |s|
    ensures s == s[..n] + s[n..]
  {
  }

  lemma Regroup(name: string, v: (nat, string), digits: string, after: string, letters: string, tail: string)
    requires name == digits + after && after == letters + "_" + tail
    requires digits != [] && AllDigits(digits) && AllLetters(letters) && MdTail(tail)
    requires v == (DigitsValue(digits), Lower(letters))
    ensures Decomposes(name, v, digits, letters, tail)
  {
  }

  /** `name` is `digits`, `letters`, `_` and a valid `tail`, giving the match `v`. */
  predicate Decomposes(name: string, v: (nat, string), digits: string, letters: string, tail: string)
  {
    name == digits + letters + "_" + tail && digits != [] && AllDigits(digits) && AllLetters(letters)
    && MdTail(tail) && v == (DigitsValue(digits), Lower(letters))
  }

  /** The letters and the tail of a match after the digit run. */
  lemma MatchAfterDigitsSound(digits: string, after: string) returns (letters: string, tail: string)
    requires AllDigits(digits) && MatchAfterDigits(digits, after).Some?
    ensures after == letters + "_" + tail && AllLetters(letters) && MdTail(tail)
    ensures MatchAfterDigits(digits, after).value == (DigitsValue(digits), Lower(letters))
  {
    var k := Span(after, IsAsciiLetter);
    letters, tail := after[..k], after[k + 1..];
    SplitAtUnderscore(after, k);
  }

  lemma SplitAtUnderscore(s: string, k: nat)
    requires k < |s| && s[k] == '_'
    ensures s == s[..k] + "_" + s[k + 1..]
  {
    assert s == s[..k] + [s[k]] + s[k + 1..];
  }

  /** The suffix of a match is made of lowercase ASCII letters. */
  lemma MatchedSuffixIsLower(name: string)
    requires MatchName(name).Some?
    ensures forall i :: 0 <= i < |MatchName(name).value.1| ==> IsAsciiLower(MatchName(name).value.1[i])
  {
    var n := Span(name, IsDigit);
    var after := name[n..];
    var k := Span(after, IsAsciiLetter);
    assert MatchName(name).value.1 == Lower(after[..k]);
  }

  // ------------------------------------------------ collect_numbered_files

  function FileOf(name: string): Option<NumberedFile>
  {
    match MatchName(name)
    case None => None
    case Some((n, s)) => Some(NumberedFile(n, s, name))
  }

  /** The matching names of a `glob("*.md")` listing, in listing order. */
  function Matched(names: seq<string>): seq<NumberedFile>
  {
    FilterMap(names, FileOf)
  }

  function Numbers(files: seq<NumberedFile>): (ns: seq<nat>)
    ensures |ns| == |files|
    ensures forall i :: 0 <= i < |files| ==> ns[i] == files[i].number
  {
    seq(|files|, i requires 0 <= i < |files| => files[i].number)
  }

  /** `numbered[n]`: the files with number `n`, in listing order. */
  function GroupOf(files: seq<NumberedFile>, n: nat): seq<NumberedFile>
  {
    Filter(files, (f: NumberedFile) => f.number == n)
  }

  lemma GroupOfAbsent(files: seq<NumberedFile>, n: nat)
    requires n !in Numbers(files)
    ensures GroupOf(files, n) == []
  {
    forall i | 0 <= i < |files| ensures files[i].number != n {
      assert Numbers(files)[i] == files[i].number;
    }
    FilterNone(files, (f: NumberedFile) => f.number == n);
  }

  /** Adding one file extends the key order and one group only. */
  lemma AddFile(files: seq<NumberedFile>, f: NumberedFile)
    ensures Numbers(files + [f]) == Numbers(files) + [f.number]
    ensures Dedup(Numbers(files + [f])) == Dedup(Numbers(files)) + (if f.number in Numbers(files) then [] else [f.number])
    ensures forall n :: GroupOf(files + [f], n) == GroupOf(files, n) + (if f.number == n then [f] else [])
  {
    var ns := Numbers(files + [f]);
    assert ns == Numbers(files) + [f.number];
    assert ns[..|ns| - 1] == Numbers(files);
    forall n ensures GroupOf(files + [f], n) == GroupOf(files, n) + (if f.number == n then [f] else []) {
      assert (files + [f])[..|files|] == files;
    }
  }

  /** `collect_numbered_files`: the dict's key order and its lists. */
  method CollectNumberedFiles(names: seq<string>) returns (order: seq<nat>, numbered: map<nat, seq<NumberedFile>>)
    ensures order == Dedup(Numbers(Matched(names)))
    ensures forall n :: n in numbered <==> n in order
    ensures forall n :: n in numbered ==> numbered[n] == GroupOf(Matched(names), n)
  {
    order, numbered := [], map[];
    for i := 0 to |names|
      invariant order == Dedup(Numbers(Matched(names[..i])))
      invariant forall n :: n in numbered <==> n in order
      invariant forall n :: n in numbered ==> numbered[n] == GroupOf(Matched(names[..i]), n)
    {
      MatchedSnoc(names, i);
      var m := FileOf(names[i]);
      if m.Some? {
        order, numbered := Append(order, numbered, Matched(names[..i]), m.value);
      }
    }
    assert names[..|names|] == names;
  }

  lemma MatchedSnoc(names: seq<string>, i: nat)
    requires i < |names|
    ensures FileOf(names[i]).None? ==> Matched(names[..i + 1]) == Matched(names[..i])
    ensures FileOf(names[i]).Some? ==> Matched(names[..i + 1]) == Matched(names[..i]) + [FileOf(names[i]).value]
  {
    assert names[..i + 1][..i] == names[..i];
  }

  /** `numbered[number].append((suffix, path))`. */
  method Append(order: seq<nat>, numbered: map<nat, seq<NumberedFile>>, ghost files: seq<NumberedFile>, f: NumberedFile)
    returns (order': seq<nat>, numbered': map<nat, seq<NumberedFile>>)
    requires order == Dedup(Numbers(files))
    requires forall n :: n in numbered <==> n in order
    requires forall n :: n in numbered ==> numbered[n] == GroupOf(files, n)
    ensures order' == Dedup(Numbers(files + [f]))
    ensures forall n :: n in numbered' <==> n in order'
    ensures forall n :: n in numbered' ==> numbered'[n] == GroupOf(files + [f], n)
  {
    AddFile(files, f);
    if f.number !in numbered {
      GroupOfAbsent(files, f.number);
      order' := order + [f.number];
      numbered' := numbered[f.number := [f]];
    } else {
      order' := order;
      numbered' := numbered[f.number := numbered[f.number] + [f]];
    }
    forall n | n in numbered' ensures numbered'[n] == GroupOf(files + [f], n) {
      if n != f.number { assert numbered'[n] == numbered[n]; }
    }
  }

  // ----------------------------------------------------- find_numeric_gaps

  /** The adjacent pairs of `ns` that differ by more than one, in order. */
  function NumericGaps(ns: seq<nat>): seq<Error>
  {
    if |ns| < 2 then []
    else
      var k := |ns| - 1;
      NumericGaps(ns[..k]) + (if ns[k] as int - ns[k - 1] as int > 1 then [Gap(ns[k - 1], ns[k])] else [])
  }

  /** `find_numeric_gaps`. */
  method FindNumericGaps(ns: seq<nat>) returns (gaps: seq<Error>)
    ensures gaps == NumericGaps(ns)
  {
    gaps := [];
    if |ns| < 2 {
      return;
    }
    for i := 1 to |ns|
      invariant gaps == NumericGaps(ns[..i])
    {
      assert ns[..i + 1][..i] == ns[..i];
      if ns[i] as int - ns[i - 1] as int > 1 {
        gaps := gaps + [Gap(ns[i - 1], ns[i])];
      }
    }
    assert ns[..|ns|] == ns;
  }

  /** On a sorted set of numbers there are no gaps exactly when each number is one more than the one before. */
  lemma {:induction false} NoGapsIff(ns: seq<nat>)
    requires Increasing(ns)
    ensures NumericGaps(ns) == [] <==> forall i :: 0 < i < |ns| ==> ns[i] == ns[i - 1] + 1
  {
    if |ns| >= 2 {
      var k: nat := |ns| - 1;
      var init := ns[..k];
      NoGapsIff(init);
      assert ns[k - 1] < ns[k];
    }
  }

  /** The message `e` is the one for the pair ending at position `i`. */
  predicate GapAt(ns: seq<nat>, i: int, e: Error)
  {
    0 < i < |ns| && ns[i] as int - ns[i - 1] as int > 1 && e == Gap(ns[i - 1], ns[i])
  }

  /** The messages are exactly the adjacent pairs that differ by more than one. */
  lemma {:induction false} GapsMembers(ns: seq<nat>, e: Error)
    ensures e in NumericGaps(ns) <==> exists i :: GapAt(ns, i, e)
  {
    if |ns| >= 2 {
      var k := |ns| - 1;
      var init := ns[..k];
      GapsMembers(init, e);
      if e in NumericGaps(ns) {
        if e in NumericGaps(init) {
          var i :| GapAt(init, i, e);
          assert GapAt(ns, i, e);
        } else {
          assert GapAt(ns, k, e);
        }
      }
      if exists i :: GapAt(ns, i, e) {
        var i :| GapAt(ns, i, e);
        if i < k { assert GapAt(init, i, e); }
      }
    } else {
      assert forall i :: !GapAt(ns, i, e);
    }
  }

  /** On a sorted set each reported gap joins two neighbouring numbers, and every number between them is missing. */
  lemma GapIsReal(ns: seq<nat>, e: Error)
    requires Increasing(ns) && e in NumericGaps(ns)
    ensures e.Gap? && e.previous in ns && e.next in ns && e.previous + 1 < e.next
    ensures forall m :: e.previous < m < e.next ==> m !in ns
  {
    GapsMembers(ns, e);
    var i :| GapAt(ns, i, e);
    forall m | ns[i - 1] < m < ns[i] ensures m !in ns {
      forall j | 0 <= j < |ns| ensures ns[j] != m {
        if j < i - 1 { assert ns[j] < ns[i - 1]; }
        else if j > i { assert ns[i] < ns[j]; }
      }
    }
  }

  // ----------------------------------------------- find_numeric_duplicates

  /** The dict key `f"{number}{suffix}"`. */
  function Key(number: nat, suffix: string): string { NatToString(number) + suffix }

  lemma KeyInjective(number: nat, s: string, t: string)
    requires Key(number, s) == Key(number, t)
    ensures s == t
  {
    var d := NatToString(number);
    assert s == Key(number, s)[|d|..];
    assert t == Key(number, t)[|d|..];
  }

  function Suffixes(group: seq<NumberedFile>): (ss: seq<string>)
    ensures |ss| == |group|
    ensures forall i :: 0 <= i < |group| ==> ss[i] == group[i].suffix
  {
    seq(|group|, i requires 0 <= i < |group| => group[i].suffix)
  }

  lemma SuffixesAppend(group: seq<NumberedFile>, f: NumberedFile)
    ensures Suffixes(group + [f]) == Suffixes(group) + [f.suffix]
  {
  }

  /** The first file of `group` with suffix `s`: the one `seen` remembers. */
  function FirstWith(group: seq<NumberedFile>, s: string): (f: NumberedFile)
    requires s in Suffixes(group)
    ensures f in group && f.suffix == s
  {
    if group[0].suffix == s then group[0]
    else
      assert Suffixes(group) == [group[0].suffix] + Suffixes(group[1..]);
      FirstWith(group[1..], s)
  }

  lemma {:induction false} FirstWithAppend(group: seq<NumberedFile>, f: NumberedFile, s: string)
    requires s in Suffixes(group)
    ensures s in Suffixes(group + [f]) && FirstWith(group + [f], s) == FirstWith(group, s)
  {
    SuffixesAppend(group, f);
    if group[0].suffix != s {
      assert Suffixes(group) == [group[0].suffix] + Suffixes(group[1..]);
      assert (group + [f])[1..] == group[1..] + [f];
      FirstWithAppend(group[1..], f, s);
    }
  }

  /** One message for every file whose suffix an earlier file of the same number already has. */
  function Duplicates(number: nat, group: seq<NumberedFile>): seq<Error>
  {
    if group == [] then []
    else
      var init := group[..|group| - 1];
      var f := group[|group| - 1];
      Duplicates(number, init)
      + (if f.suffix in Suffixes(init) then [DuplicateEntry(Key(number, f.suffix), FirstWith(init, f.suffix).name, f.name)] else [])
  }

  /** One message per repeat: messages and distinct suffixes together account for every file. */
  lemma {:induction false} DuplicatesCount(number: nat, group: seq<NumberedFile>)
    ensures |Duplicates(number, group)| + |Dedup(Suffixes(group))| == |group|
  {
    if group != [] {
      var init := group[..|group| - 1];
      var f := group[|group| - 1];
      assert group == init + [f];
      SuffixesAppend(init, f);
      var ss := Suffixes(group);
      assert ss[..|ss| - 1] == Suffixes(init);
      DuplicatesCount(number, init);
    }
  }

  /** The inner loop of `find_numeric_duplicates`, over one number's files. */
  method GroupDuplicates(number: nat, group: seq<NumberedFile>) returns (dups: seq<Error>)
    ensures dups == Duplicates(number, group)
  {
    var seen: map<string, string> := map[];
    dups := [];
    for i := 0 to |group|
      invariant SeenFirst(number, group[..i], seen)
      invariant dups == Duplicates(number, group[..i])
    {
      assert group[..i + 1] == group[..i] + [group[i]];
      seen, dups := VisitFile(number, group[..i], group[i], seen, dups);
    }
    assert group[..|group|] == group;
  }

  /** `seen` maps the key of every suffix met so far to the name of the first file with it. */
  ghost predicate SeenFirst(number: nat, prefix: seq<NumberedFile>, seen: map<string, string>)
  {
    (forall s :: Key(number, s) in seen <==> s in Suffixes(prefix))
    && forall s :: s in Suffixes(prefix) ==> seen[Key(number, s)] == FirstWith(prefix, s).name
  }

  /** One turn of the inner loop of `find_numeric_duplicates`. */
  method VisitFile(number: nat, ghost prefix: seq<NumberedFile>, f: NumberedFile, seen: map<string, string>, dups: seq<Error>)
    returns (seen': map<string, string>, dups': seq<Error>)
    requires SeenFirst(number, prefix, seen) && dups == Duplicates(number, prefix)
    ensures SeenFirst(number, prefix + [f], seen') && dups' == Duplicates(number, prefix + [f])
  {
    assert (prefix + [f])[..|prefix|] == prefix;
    SuffixesAppend(prefix, f);
    var key := Key(number, f.suffix);
    if key in seen {
      dups' := dups + [DuplicateEntry(key, seen[key], f.name)];
      seen' := seen;
    } else {
      dups' := dups;
      seen' := seen[key := f.name];
    }
    forall s | s in Suffixes(prefix) ensures FirstWith(prefix + [f], s) == FirstWith(prefix, s) {
      FirstWithAppend(prefix, f, s);
    }
    forall s | Key(number, s) == key ensures s == f.suffix {
      KeyInjective(number, s, f.suffix);
    }
  }

  /** `find_numeric_duplicates` over the numbers `ns` taken in dict order. */
  function DuplicatesOver(files: seq<NumberedFile>, ns: seq<nat>): seq<Error>
  {
    if ns == [] then []
    else
      var k := |ns| - 1;
      DuplicatesOver(files, ns[..k]) + Duplicates(ns[k], GroupOf(files, ns[k]))
  }

  /** `find_numeric_duplicates`. */
  method FindNumericDuplicates(order: seq<nat>, numbered: map<nat, seq<NumberedFile>>, ghost files: seq<NumberedFile>)
    returns (dups: seq<Error>)
    requires forall n :: n in order ==> n in numbered && numbered[n] == GroupOf(files, n)
    ensures dups == DuplicatesOver(files, order)
  {
    dups := [];
    for k := 0 to |order|
      invariant dups == DuplicatesOver(files, order[..k])
    {
      assert order[..k + 1][..k] == order[..k];
      assert order[k] in order;
      var more := GroupDuplicates(order[k], numbered[order[k]]);
      dups := dups + more;
    }
    assert order[..|order|] == order;
  }

  // ------------------------------------------------ check_suffix_sequences

  /** `[suffix for suffix, _ in suffix_entries if suffix]`. */
  function Letters(group: seq<NumberedFile>): seq<string>
  {
    Filter(Suffixes(group), (s: string) => s != [])
  }

  /** `ord` of a one-letter suffix. */
  function Code(s: string): nat { if s == [] then 0 else s[0] as nat }

  function Codes(ls: seq<string>): (cs: seq<nat>)
    ensures |cs| == |ls|
    ensures forall i :: 0 <= i < |ls| ==> cs[i] == Code(ls[i])
  {
    seq(|ls|, i requires 0 <= i < |ls| => Code(ls[i]))
  }

  /** `expected_ord` when the loop reaches position `i`: the start, then one past the previous letter. */
  function Expected(codes: seq<nat>, start: nat, i: nat): nat
    requires i <= |codes|
  {
    if i == 0 then start else codes[i - 1] + 1
  }

  /** One message for each position whose letter is not the expected one. */
  function LabelErrors(number: nat, codes: seq<nat>, start: nat): seq<Error>
  {
    if codes == [] then []
    else
      var k := |codes| - 1;
      var e := Expected(codes, start, k);
      LabelErrors(number, codes[..k], start) + (if codes[k] != e then [MissingLabel(number, e, codes[k])] else [])
  }

  /** `check_suffix_sequences`. */
  function SuffixSequenceErrors(number: nat, group: seq<NumberedFile>): Result<seq<Error>, Raised>
  {
    var letters := Letters(group);
    if exists i :: 0 <= i < |letters| && |letters[i]| > 1 then Err(OrdTypeError)
    else
      var codes := SortedSet(Codes(letters));
      var dup := if |codes| != |letters| then [DuplicateSuffix(number)] else [];
      if codes == [] then Ok(dup)
      else Ok(dup + LabelErrors(number, codes, if [] in Suffixes(group) then codes[0] else 'a' as nat))
  }

  /** The `for letter in letters` loop with its resynchronising `expected_ord`. */
  method CheckLetterRun(number: nat, codes: seq<nat>, start: nat) returns (errors: seq<Error>)
    ensures errors == LabelErrors(number, codes, start)
  {
    var expected := start;
    errors := [];
    for i := 0 to |codes|
      invariant expected == Expected(codes, start, i)
      invariant errors == LabelErrors(number, codes[..i], start)
    {
      assert codes[..i + 1][..i] == codes[..i];
      if codes[i] != expected {
        errors := errors + [MissingLabel(number, expected, codes[i])];
        expected := codes[i];
      }
      expected := expected + 1;
    }
    assert codes[..|codes|] == codes;
  }

  /** `check_suffix_sequences`: the `TypeError` of `ord` when a suffix has several letters. */
  method CheckSuffixSequences(number: nat, group: seq<NumberedFile>) returns (r: Result<seq<Error>, Raised>)
    ensures r == SuffixSequenceErrors(number, group)
  {
    var basePresent := [] in Suffixes(group);
    var letters := Letters(group);
    if exists i :: 0 <= i < |letters| && |letters[i]| > 1 {
      return Err(OrdTypeError);
    }
    var codes := SortedSet(Codes(letters));
    var errors := if |codes| != |letters| then [DuplicateSuffix(number)] else [];
    if codes == [] {
      return Ok(errors);
    }
    var expectedStart := if !basePresent then 'a' as nat else codes[0];
    var run := CheckLetterRun(number, codes, expectedStart);
    return Ok(errors + run);
  }

  /** With no letters there are no sequence errors at all. */
  lemma NoLettersNoErrors(number: nat, group: seq<NumberedFile>)
    requires Letters(group) == []
    ensures SuffixSequenceErrors(number, group) == Ok([])
  {
  }

  /** The check raises exactly when some file of the number has a suffix of several letters. */
  lemma RaisesIff(number: nat, group: seq<NumberedFile>)
    ensures SuffixSequenceErrors(number, group).Err? <==> exists f :: f in group && |f.suffix| > 1
  {
    var letters := Letters(group);
    if exists f :: f in group && |f.suffix| > 1 {
      var f :| f in group && |f.suffix| > 1;
      var j :| 0 <= j < |group| && group[j] == f;
      assert Suffixes(group)[j] == f.suffix;
      assert f.suffix in letters;
      var i :| 0 <= i < |letters| && letters[i] == f.suffix;
    }
    if exists i :: 0 <= i < |letters| && |letters[i]| > 1 {
      var i :| 0 <= i < |letters| && |letters[i]| > 1;
      assert letters[i] in Suffixes(group);
      var j :| 0 <= j < |group| && Suffixes(group)[j] == letters[i];
      assert group[j] in group;
    }
  }

  /** One-letter suffixes are told apart by their codes. */
  lemma CodesDistinct(ls: seq<string>)
    requires forall i :: 0 <= i < |ls| ==> |ls[i]| == 1
    ensures Distinct(Codes(ls)) <==> forall i, j :: 0 <= i < j < |ls| ==> ls[i] != ls[j]
  {
    forall i, j | 0 <= i < j < |ls| && Code(ls[i]) == Code(ls[j]) ensures ls[i] == ls[j] {
      assert ls[i] == [ls[i][0]] && ls[j] == [ls[j][0]];
    }
  }

  /** The duplicate-suffix message appears exactly when two files of the number share a letter suffix. */
  lemma DuplicateSuffixIff(number: nat, group: seq<NumberedFile>)
    requires SuffixSequenceErrors(number, group).Ok?
    ensures var letters := Letters(group);
      DuplicateSuffix(number) in SuffixSequenceErrors(number, group).value
      <==> exists i, j :: 0 <= i < j < |letters| && letters[i] == letters[j]
  {
    var letters := Letters(group);
    forall i | 0 <= i < |letters| ensures |letters[i]| == 1 {
      assert letters[i] in letters;
    }
    CodesDistinct(letters);
    SortedSetSize(Codes(letters));
    var codes := SortedSet(Codes(letters));
    if codes != [] {
      LabelErrorsAreMissingLabels(number, codes, if [] in Suffixes(group) then codes[0] else 'a' as nat);
    }
  }

  lemma {:induction false} LabelErrorsAreMissingLabels(number: nat, codes: seq<nat>, start: nat)
    ensures forall e :: e in LabelErrors(number, codes, start) ==> e.MissingLabel?
  {
    if codes != [] {
      LabelErrorsAreMissingLabels(number, codes[..|codes| - 1], start);
    }
  }

  /** The message `e` is the one for position `i`. */
  predicate LabelErrorAt(number: nat, codes: seq<nat>, start: nat, i: int, e: Error)
  {
    0 <= i < |codes| && codes[i] != Expected(codes, start, i) && e == MissingLabel(number, Expected(codes, start, i), codes[i])
  }

  lemma LabelErrorAtPrefix(number: nat, codes: seq<nat>, start: nat, k: nat, i: int, e: Error)
    requires k <= |codes| && 0 <= i < k
    ensures LabelErrorAt(number, codes[..k], start, i, e) <==> LabelErrorAt(number, codes, start, i, e)
  {
    assert Expected(codes[..k], start, i) == Expected(codes, start, i);
  }

  /** The messages are exactly the positions whose letter is not the expected one. */
  lemma {:induction false} LabelErrorsMembers(number: nat, codes: seq<nat>, start: nat, e: Error)
    ensures e in LabelErrors(number, codes, start) <==> exists i :: LabelErrorAt(number, codes, start, i, e)
  {
    if codes != [] {
      var k := |codes| - 1;
      var init := codes[..k];
      LabelErrorsMembers(number, init, start, e);
      if e in LabelErrors(number, codes, start) {
        if e in LabelErrors(number, init, start) {
          var i :| LabelErrorAt(number, init, start, i, e);
          LabelErrorAtPrefix(number, codes, start, k, i, e);
        } else {
          assert LabelErrorAt(number, codes, start, k, e);
        }
      }
      if exists i :: LabelErrorAt(number, codes, start, i, e) {
        var i :| LabelErrorAt(number, codes, start, i, e);
        if i < k {
          LabelErrorAtPrefix(number, codes, start, k, i, e);
        }
      }
    }
  }

  /** No message exactly when the letters run without a hole from the start. */
  lemma {:induction false} LabelErrorsEmptyIff(number: nat, codes: seq<nat>, start: nat)
    ensures LabelErrors(number, codes, start) == [] <==> forall i :: 0 <= i < |codes| ==> codes[i] == start + i
  {
    if codes != [] {
      var k := |codes| - 1;
      var init := codes[..k];
      LabelErrorsEmptyIff(number, init, start);
      if k > 0 && LabelErrors(number, init, start) == [] {
        assert init[k - 1] == start + (k - 1);
      }
    }
  }

  /**
   * On sorted distinct letters starting no lower than `start`, each message names
   * a letter that is present and an expected letter below it that is absent.
   * With a base file the start is the first letter, which is never reported.
   */
  lemma MissingLabelIsMissing(number: nat, codes: seq<nat>, start: nat, e: Error)
    requires Increasing(codes) && codes != [] && start <= codes[0]
    requires e in LabelErrors(number, codes, start)
    ensures e.MissingLabel? && e.found in codes && e.expected < e.found && e.expected !in codes
    ensures start == codes[0] ==> e.found != codes[0]
  {
    LabelErrorsMembers(number, codes, start, e);
    var i :| LabelErrorAt(number, codes, start, i, e);
    var x := Expected(codes, start, i);
    forall j | 0 <= j < |codes| ensures codes[j] != x {
      if i > 0 {
        if j < i { assert codes[j] <= codes[i - 1]; }
        else if j > i { assert codes[i] < codes[j]; }
      } else if j > 0 {
        assert codes[0] < codes[j];
      }
    }
    assert i > 0 ==> codes[i - 1] < codes[i];
    assert start == codes[0] ==> i > 0;
  }

  // ---------------------------------------------------------------- main

  /** The suffix checks of the numbers `ns` in dict order; the first `TypeError` ends `main`. */
  function SuffixErrorsOver(files: seq<NumberedFile>, ns: seq<nat>): Result<seq<Error>, Raised>
  {
    if ns == [] then Ok([])
    else
      var k := |ns| - 1;
      match SuffixErrorsOver(files, ns[..k])
      case Err(x) => Err(x)
      case Ok(es) =>
        match SuffixSequenceErrors(ns[k], GroupOf(files, ns[k]))
        case Err(x) => Err(x)
        case Ok(more) => Ok(es + more)
  }

  /** `main` on the names `DOCS_DIR.glob("*.md")` yields. */
  function MainOutcome(names: seq<string>): Outcome
  {
    var files := Matched(names);
    if files == [] then Exit(0)
    else
      var order := Dedup(Numbers(files));
      var errors := NumericGaps(SortedSet(Numbers(files))) + DuplicatesOver(files, order);
      match SuffixErrorsOver(files, order)
      case Err(_) => Crash
      case Ok(more) => Exit(if errors + more == [] then 0 else 1)
  }

  /** The loop of `main` over the dict's items, calling `check_suffix_sequences` on each. */
  method CheckAllSuffixes(order: seq<nat>, numbered: map<nat, seq<NumberedFile>>, ghost files: seq<NumberedFile>)
    returns (r: Result<seq<Error>, Raised>)
    requires forall n :: n in order ==> n in numbered && numbered[n] == GroupOf(files, n)
    ensures r == SuffixErrorsOver(files, order)
  {
    var errors: seq<Error> := [];
    for k := 0 to |order|
      invariant SuffixErrorsOver(files, order[..k]) == Ok(errors)
    {
      assert order[..k + 1][..k] == order[..k];
      assert order[k] in order;
      var more := CheckSuffixSequences(order[k], numbered[order[k]]);
      if more.Err? {
        SuffixErrorsStayFailed(files, order, k + 1);
        return Err(OrdTypeError);
      }
      errors := errors + more.value;
    }
    assert order[..|order|] == order;
    return Ok(errors);
  }

  /** Once a suffix check raises, `main` raises whatever numbers come after. */
  lemma {:induction false} SuffixErrorsStayFailed(files: seq<NumberedFile>, ns: seq<nat>, k: nat)
    requires k <= |ns| && SuffixErrorsOver(files, ns[..k]) == Err(OrdTypeError)
    ensures SuffixErrorsOver(files, ns) == Err(OrdTypeError)
    decreases |ns| - k
  {
    if k < |ns| {
      assert ns[..k + 1][..k] == ns[..k];
      SuffixErrorsStayFailed(files, ns, k + 1);
    } else {
      assert ns[..k] == ns;
    }
  }

  /** `main`. */
  method RunMain(names: seq<string>) returns (outcome: Outcome)
    ensures outcome == MainOutcome(names)
  {
    var order, numbered := CollectNumberedFiles(names);
    if order == [] {
      return Exit(0);
    }
    var files := Matched(names);
    var sortedNumbers := SortedSet(order);
    assert sortedNumbers == SortedSet(Numbers(files)) by {
      IncreasingUnique(sortedNumbers, SortedSet(Numbers(files)));
    }
    var gaps := FindNumericGaps(sortedNumbers);
    var dups := FindNumericDuplicates(order, numbered, files);
    var suffixes := CheckAllSuffixes(order, numbered, files);
    if suffixes.Err? {
      return Crash;
    }
    var errors := gaps + dups + suffixes.value;
    outcome := if errors != [] then Exit(1) else Exit(0);
  }

  /** `main` succeeds exactly when nothing matched or no check reported anything. */
  lemma MainExitIff(names: seq<string>)
    ensures var files := Matched(names);
      var order := Dedup(Numbers(files));
      MainOutcome(names) == Exit(0) <==> (files == [] || (NumericGaps(SortedSet(Numbers(files))) == []
        && DuplicatesOver(files, order) == [] && SuffixErrorsOver(files, order) == Ok([])))
  {
  }

  /** `main` raises exactly when some matched file has a suffix of several letters. */
  lemma MainCrashIff(names: seq<string>)
    ensures MainOutcome(names) == Crash <==> exists f :: f in Matched(names) && |f.suffix| > 1
  {
    var files := Matched(names);
    var order := Dedup(Numbers(files));
    SuffixErrorsOverRaisesIff(files, order);
    if exists f :: f in files && |f.suffix| > 1 {
      var f :| f in files && |f.suffix| > 1;
      var i :| 0 <= i < |files| && files[i] == f;
      assert Numbers(files)[i] == f.number;
      assert f.number in order;
      assert f in GroupOf(files, f.number);
    }
  }

  /** The suffix checks over `ns` raise exactly when a group of one of those numbers holds a multi-letter suffix. */
  lemma {:induction false} SuffixErrorsOverRaisesIff(files: seq<NumberedFile>, ns: seq<nat>)
    ensures SuffixErrorsOver(files, ns).Err? <==>
      exists n, f :: n in ns && f in GroupOf(files, n) && |f.suffix| > 1
  {
    if ns != [] {
      var k := |ns| - 1;
      var init := ns[..k];
      SuffixErrorsOverRaisesIff(files, init);
      RaisesIff(ns[k], GroupOf(files, ns[k]));
      assert ns == init + [ns[k]];
    }
  }

  // ------------------------------------------------- corrected suffix check

  /**
   * `check_suffix_sequences` as evidently intended: a number whose files use a
   * suffix of several letters gets one message instead of reaching `ord`.
   */
  function FixedSuffixErrors(number: nat, group: seq<NumberedFile>): (r: seq<Error>)
    ensures (exists f :: f in group && |f.suffix| > 1) <==> LongSuffix(number) in r
    ensures SuffixSequenceErrors(number, group).Ok? ==> r == SuffixSequenceErrors(number, group).value
  {
    RaisesIff(number, group);
    match SuffixSequenceErrors(number, group)
    case Err(_) => [LongSuffix(number)]
    case Ok(es) =>
      assert LongSuffix(number) !in es by {
        var letters := Letters(group);
        var codes := SortedSet(Codes(letters));
        if codes != [] {
          LabelErrorsAreMissingLabels(number, codes, if [] in Suffixes(group) then codes[0] else 'a' as nat);
        }
      }
      es
  }

  /** The corrected checks of the numbers `ns` in dict order. */
  function FixedSuffixErrorsOver(files: seq<NumberedFile>, ns: seq<nat>): seq<Error>
  {
    if ns == [] then []
    else
      var k := |ns| - 1;
      FixedSuffixErrorsOver(files, ns[..k]) + FixedSuffixErrors(ns[k], GroupOf(files, ns[k]))
  }

  /** `main` built on the corrected check. */
  function FixedMainOutcome(names: seq<string>): Outcome
  {
    var files := Matched(names);
    if files == [] then Exit(0)
    else
      var order := Dedup(Numbers(files));
      var errors := NumericGaps(SortedSet(Numbers(files))) + DuplicatesOver(files, order);
      Exit(if errors + FixedSuffixErrorsOver(files, order) == [] then 0 else 1)
  }

  /** Where the script's checks do not raise, the corrected ones report the same messages. */
  lemma {:induction false} FixedSuffixErrorsOverAgree(files: seq<NumberedFile>, ns: seq<nat>)
    requires SuffixErrorsOver(files, ns).Ok?
    ensures FixedSuffixErrorsOver(files, ns) == SuffixErrorsOver(files, ns).value
  {
    if ns != [] {
      var k := |ns| - 1;
      FixedSuffixErrorsOverAgree(files, ns[..k]);
    }
  }

  /** A number of `ns` with a multi-letter suffix gets its message from the corrected checks. */
  lemma {:induction false} FixedSuffixErrorsOverReports(files: seq<NumberedFile>, ns: seq<nat>, n: nat, f: NumberedFile)
    requires n in ns && f in GroupOf(files, n) && |f.suffix| > 1
    ensures LongSuffix(n) in FixedSuffixErrorsOver(files, ns)
  {
    var k := |ns| - 1;
    if ns[k] != n {
      assert n in ns[..k];
      FixedSuffixErrorsOverReports(files, ns[..k], n, f);
    }
  }

  /**
   * The corrected `main` never raises; it agrees with the script wherever the
   * script does not raise, and fails where the script would have raised.
   */
  lemma FixedMainIff(names: seq<string>)
    ensures FixedMainOutcome(names).Exit?
    ensures MainOutcome(names).Exit? ==> FixedMainOutcome(names) == MainOutcome(names)
    ensures MainOutcome(names) == Crash ==> FixedMainOutcome(names) == Exit(1)
  {
    var files := Matched(names);
    var order := Dedup(Numbers(files));
    if files != [] {
      if SuffixErrorsOver(files, order).Ok? {
        FixedSuffixErrorsOverAgree(files, order);
      } else {
        MainCrashIff(names);
        var f :| f in files && |f.suffix| > 1;
        var i :| 0 <= i < |files| && files[i] == f;
        assert Numbers(files)[i] == f.number;
        assert f.number in order;
        assert f in GroupOf(files, f.number);
        FixedSuffixErrorsOverReports(files, order, f.number, f);
      }
    }
  }

  /**
   * A name such as `01ab_x.md`, whose suffix has several letters, makes the
   * script raise and the corrected check fail.
   */
  lemma LongSuffixCrashes(digits: string, letters: string, tail: string)
    requires digits != [] && AllDigits(digits) && AllLetters(letters) && MdTail(tail) && |letters| > 1
    ensures MainOutcome([digits + letters + "_" + tail]) == Crash
    ensures FixedMainOutcome([digits + letters + "_" + tail]) == Exit(1)
  {
    var name := digits + letters + "_" + tail;
    MatchNameComplete(digits, letters, tail);
    var f := NumberedFile(DigitsValue(digits), Lower(letters), name);
    assert FileOf(name) == Some(f);
    assert Matched([name]) == [f] by {
      assert [name][..0] == [];
    }
    MainCrashIff([name]);
    FixedMainIff([name]);
  }
}
