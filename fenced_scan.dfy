/**
 * The line scan shared by the markdown checkers: lines are taken one at a
 * time after `rstrip()`, a line starting with three backticks or three tildes
 * opens or closes a fenced block and is not checked itself, lines inside a
 * block are skipped, and every other line the check rejects is reported with
 * its 1-based number.
 */
module FencedScan {
  import opened Str
  import Seqs

  const BacktickFence := "```"
  const TildeFence := "~~~"

  /** A fence line: after `rstrip()` it starts with three backticks or three tildes. */
  predicate IsFence(line: string)
  {
    StartsWith(RStrip(line), BacktickFence) || StartsWith(RStrip(line), TildeFence)
  }

  /** The number of fence lines. */
  function Fences(lines: seq<string>): nat
    decreases |lines|
  {
    if lines == [] then 0 else Fences(lines[..|lines| - 1]) + (if IsFence(lines[|lines| - 1]) then 1 else 0)
  }

  /** The line that follows `before` is inside a fenced block: each fence flips the flag, starting outside. */
  predicate InBlock(before: seq<string>)
    decreases |before|
  {
    if before == [] then false else InBlock(before[..|before| - 1]) != IsFence(before[|before| - 1])
  }

  /** The line that follows `before` is reported: no fence, outside every block, and rejected once rstripped. */
  predicate Reported(before: seq<string>, line: string, bad: string -> bool)
  {
    !IsFence(line) && !InBlock(before) && bad(RStrip(line))
  }

  /** The reported lines as (1-based number, rstripped line), in file order. */
  function Issues(lines: seq<string>, bad: string -> bool): seq<(nat, string)>
    decreases |lines|
  {
    if lines == [] then []
    else
      var before := lines[..|lines| - 1];
      var line := lines[|lines| - 1];
      Issues(before, bad) + (if Reported(before, line, bad) then [(|lines|, RStrip(line))] else [])
  }

  lemma IssuesSnoc(before: seq<string>, line: string, bad: string -> bool)
    ensures Issues(before + [line], bad)
      == Issues(before, bad) + (if Reported(before, line, bad) then [(|before| + 1, RStrip(line))] else [])
    ensures Fences(before + [line]) == Fences(before) + (if IsFence(line) then 1 else 0)
  {
    assert (before + [line])[..|before|] == before;
  }

  lemma BlockSnoc(before: seq<string>, line: string)
    ensures InBlock(before + [line]) == (InBlock(before) != IsFence(line))
  {
    assert (before + [line])[..|before|] == before;
  }

  /** A line is inside a block exactly when an odd number of fences precede it. */
  lemma {:induction false} InBlockOdd(before: seq<string>)
    ensures InBlock(before) <==> Fences(before) % 2 == 1
    decreases |before|
  {
    if before != [] {
      InBlockOdd(before[..|before| - 1]);
    }
  }

  /** `check_file`'s loop: the fence flag toggles on fence lines, and rejected lines outside blocks are collected. */
  method ScanLines(lines: seq<string>, bad: string -> bool) returns (issues: seq<(nat, string)>)
    ensures issues == Issues(lines, bad)
  {
    issues := [];
    var inCodeBlock := false;
    for i := 0 to |lines|
      invariant issues == Issues(lines[..i], bad)
      invariant inCodeBlock == InBlock(lines[..i])
    {
      Seqs.PrefixSnoc(lines, i);
      issues, inCodeBlock := ScanLine(lines[..i], lines[i], bad, issues, inCodeBlock);
    }
    Seqs.PrefixAll(lines);
  }

  /** One pass of the loop body over `line`, which follows `before`. */
  method ScanLine(before: seq<string>, line: string, bad: string -> bool, issues: seq<(nat, string)>, inCodeBlock: bool)
    returns (issues': seq<(nat, string)>, inCodeBlock': bool)
    requires issues == Issues(before, bad) && inCodeBlock == InBlock(before)
    ensures issues' == Issues(before + [line], bad) && inCodeBlock' == InBlock(before + [line])
  {
    IssuesSnoc(before, line, bad);
    BlockSnoc(before, line);
    issues', inCodeBlock' := issues, inCodeBlock;
    var stripped := RStrip(line);
    if StartsWith(stripped, BacktickFence) || StartsWith(stripped, TildeFence) {
      inCodeBlock' := !inCodeBlock;
      return;
    }
    if inCodeBlock {
      return;
    }
    if bad(stripped) {
      issues' := issues + [(|before| + 1, stripped)];
    }
  }

  /** An issue names line `n` exactly when that line is reported, and carries the line rstripped. */
  lemma {:induction false} IssuesIff(lines: seq<string>, bad: string -> bool, n: nat, text: string)
    ensures (n, text) in Issues(lines, bad) <==>
      1 <= n <= |lines| && Reported(lines[..n - 1], lines[n - 1], bad) && text == RStrip(lines[n - 1])
    decreases |lines|
  {
    if lines != [] {
      var before := lines[..|lines| - 1];
      IssuesIff(before, bad, n, text);
      Seqs.InitLast(lines);
      IssuesSnoc(before, lines[|lines| - 1], bad);
      if 1 <= n <= |before| {
        assert lines[..n - 1] == before[..n - 1] && lines[n - 1] == before[n - 1];
      }
    }
  }

  /** The issues are in file order, one per line at most, each within the file. */
  lemma {:induction false} IssuesOrdered(lines: seq<string>, bad: string -> bool)
    ensures forall k :: 0 <= k < |Issues(lines, bad)| ==> 1 <= Issues(lines, bad)[k].0 <= |lines|
    ensures forall j, k :: 0 <= j < k < |Issues(lines, bad)| ==> Issues(lines, bad)[j].0 < Issues(lines, bad)[k].0
    decreases |lines|
  {
    if lines != [] {
      var before := lines[..|lines| - 1];
      IssuesOrdered(before, bad);
      Seqs.InitLast(lines);
      IssuesSnoc(before, lines[|lines| - 1], bad);
    }
  }

  /** Lines without a fence add no fence. */
  lemma {:induction false} BlockUnchanged(xs: seq<string>, ys: seq<string>)
    requires forall k :: 0 <= k < |ys| ==> !IsFence(ys[k])
    ensures InBlock(xs + ys) == InBlock(xs)
    decreases |ys|
  {
    if ys != [] {
      var init := ys[..|ys| - 1];
      BlockUnchanged(xs, init);
      Seqs.InitLast(ys);
      Seqs.AppendAssoc(xs, init, [ys[|ys| - 1]]);
      BlockSnoc(xs + init, ys[|ys| - 1]);
    } else {
      assert xs + ys == xs;
    }
  }

  /**
   * After a fence that opens a block, no line is reported until the next
   * fence, whatever the check says about it.
   */
  lemma FencedBodySkipped(before: seq<string>, fence: string, body: seq<string>, j: nat, bad: string -> bool)
    requires IsFence(fence) && !InBlock(before)
    requires forall k :: 0 <= k < |body| ==> !IsFence(body[k])
    requires j < |body|
    ensures !Reported(before + [fence] + body[..j], body[j], bad)
  {
    BlockSnoc(before, fence);
    BlockUnchanged(before + [fence], body[..j]);
  }
}
