/**
 * Python string semantics shared by the tooling models: the exact
 * `str.isspace` character set, strip/lstrip/rstrip, `split(sep)`, `split()`,
 * `splitlines()`, `find`, `replace`, `count`, `lower`, integer formatting and
 * parsing.  Case and letter tests cover ASCII and Latin-1.
 */
module Str {

  // ---------------------------------------------------------------- chars

  /** Python's `str.isspace` for one character. */
  predicate IsSpace(c: char)
  {
    c == ' ' || ('\t' <= c <= '\r') || ('\U{1c}' <= c <= '\U{1f}')
    || c == '\U{85}' || c == '\U{a0}' || c == '\U{1680}'
    || ('\U{2000}' <= c <= '\U{200a}') || c == '\U{2028}' || c == '\U{2029}'
    || c == '\U{202f}' || c == '\U{205f}' || c == '\U{3000}'
  }

  predicate NotSpace(c: char) { !IsSpace(c) }

  /** Characters at which `str.splitlines` breaks a line. */
  predicate IsLineBreak(c: char)
  {
    c == '\n' || c == '\r' || c == '\U{0b}' || c == '\U{0c}'
    || ('\U{1c}' <= c <= '\U{1e}') || c == '\U{85}' || c == '\U{2028}' || c == '\U{2029}'
  }

  predicate NotLineBreak(c: char) { !IsLineBreak(c) }

  predicate IsDigit(c: char) { '0' <= c <= '9' }

  predicate IsAsciiUpper(c: char) { 'A' <= c <= 'Z' }

  predicate IsAsciiLower(c: char) { 'a' <= c <= 'z' }

  /** `c.isupper()` for ASCII and Latin-1 characters. */
  predicate IsUpper(c: char)
  {
    IsAsciiUpper(c) || ('\U{c0}' <= c <= '\U{de}' && c != '\U{d7}')
  }

  /** `c.islower()` for ASCII and Latin-1 characters. */
  predicate IsLower(c: char)
  {
    IsAsciiLower(c) || c == '\U{aa}' || c == '\U{b5}' || c == '\U{ba}'
    || ('\U{df}' <= c <= '\U{ff}' && c != '\U{f7}')
  }

  /** `c.isalpha()` for ASCII and Latin-1 characters. */
  predicate IsAlpha(c: char) { IsUpper(c) || IsLower(c) }

  /** Membership in the regex class `\w` (ASCII and Latin-1). */
  predicate IsWordChar(c: char)
  {
    IsAlpha(c) || IsDigit(c) || c == '_'
    || c == '\U{b2}' || c == '\U{b3}' || c == '\U{b9}' || ('\U{bc}' <= c <= '\U{be}')
  }

  function LowerChar(c: char): (r: char)
    ensures IsUpper(c) ==> IsLower(r)
    ensures !IsUpper(c) ==> r == c
  {
    if IsUpper(c) then (c as int + 32) as char else c
  }

  /** Upper-casing of ASCII lowercase letters (`str.upper` on `a`..`z`). */
  function UpperAscii(c: char): (r: char)
    ensures IsAsciiLower(c) ==> IsAsciiUpper(r) && LowerChar(r) == c
    ensures !IsAsciiLower(c) ==> r == c
  {
    if IsAsciiLower(c) then (c as int - 32) as char else c
  }

  function Lower(s: string): (r: string)
    ensures |r| == |s|
    ensures forall i :: 0 <= i < |s| ==> r[i] == LowerChar(s[i])
  {
    seq(|s|, i requires 0 <= i < |s| => LowerChar(s[i]))
  }

  // ------------------------------------------------------------- prefixes

  predicate StartsWith(s: string, p: string) { |p| <= |s| && s[..|p|] == p }

  predicate EndsWith(s: string, p: string) { |p| <= |s| && s[|s| - |p|..] == p }

  /** Length of the longest prefix of `s` whose characters all satisfy `p`. */
  function Span(s: string, p: char -> bool): (n: nat)
    ensures n <= |s|
    ensures forall i :: 0 <= i < n ==> p(s[i])
    ensures n == |s| || !p(s[n])
  {
    if s != [] && p(s[0]) then 1 + Span(s[1..], p) else 0
  }

  /** A run of characters satisfying `p` followed by one that does not is exactly the span. */
  lemma {:induction false} SpanOfPrefix(u: string, v: string, p: char -> bool)
    requires forall i :: 0 <= i < |u| ==> p(u[i])
    requires v == [] || !p(v[0])
    ensures Span(u + v, p) == |u|
    decreases |u|
  {
    if u != [] {
      assert (u + v)[1..] == u[1..] + v;
      SpanOfPrefix(u[1..], v, p);
    }
  }

  /** A prefix of `n` characters satisfying `p` is covered by the span. */
  lemma {:induction false} SpanCovers(s: string, n: nat, p: char -> bool)
    requires n <= |s| && forall i :: 0 <= i < n ==> p(s[i])
    ensures Span(s, p) >= n
    decreases n
  {
    if n > 0 {
      SpanCovers(s[1..], n - 1, p);
    }
  }

  /** `s` without its longest prefix of characters satisfying `p`. */
  function DropWhile(s: string, p: char -> bool): (r: string)
    ensures |r| <= |s| && r == s[|s| - |r|..]
    ensures forall i :: 0 <= i < |s| - |r| ==> p(s[i])
    ensures r == [] || !p(r[0])
  {
    if s != [] && p(s[0]) then
      var r := DropWhile(s[1..], p);
      assert s[1..][|s| - 1 - |r|..] == s[|s| - |r|..];
      assert forall i :: 1 <= i < |s| - |r| ==> s[i] == s[1..][i - 1];
      r
    else s
  }

  /** `s` without its longest suffix of characters satisfying `p`. */
  function DropWhileEnd(s: string, p: char -> bool): (r: string)
    ensures |r| <= |s| && r == s[..|r|]
    ensures forall i :: |r| <= i < |s| ==> p(s[i])
    ensures r == [] || !p(r[|r| - 1])
  {
    if s != [] && p(s[|s| - 1]) then DropWhileEnd(s[..|s| - 1], p) else s
  }

  /** Nothing is dropped when the first character does not qualify. */
  lemma DropWhileStops(s: string, p: char -> bool)
    requires s == [] || !p(s[0])
    ensures DropWhile(s, p) == s
  {
  }

  /** Nothing is dropped at the end when the last character does not qualify. */
  lemma DropWhileEndStops(s: string, p: char -> bool)
    requires s == [] || !p(s[|s| - 1])
    ensures DropWhileEnd(s, p) == s
  {
  }

  function LStrip(s: string): (r: string)
    ensures |r| <= |s| && r == s[|s| - |r|..]
    ensures forall i :: 0 <= i < |s| - |r| ==> IsSpace(s[i])
    ensures r == [] || !IsSpace(r[0])
  {
    DropWhile(s, IsSpace)
  }

  function RStrip(s: string): (r: string)
    ensures |r| <= |s| && r == s[..|r|]
    ensures forall i :: |r| <= i < |s| ==> IsSpace(s[i])
    ensures r == [] || !IsSpace(r[|r| - 1])
  {
    DropWhileEnd(s, IsSpace)
  }

  /** No character of `s` is whitespace-free: `not s.strip()`. */
  predicate IsBlank(s: string) { forall i :: 0 <= i < |s| ==> IsSpace(s[i]) }

  predicate NoSpace(s: string) { forall i :: 0 <= i < |s| ==> !IsSpace(s[i]) }

  /** `s.strip()`: leading whitespace first, then trailing whitespace. */
  function Strip(s: string): (r: string)
    ensures |r| <= |s|
    ensures r == [] <==> IsBlank(s)
    ensures r == [] || (!IsSpace(r[0]) && !IsSpace(r[|r| - 1]))
    decreases |s|
  {
    if s == [] then []
    else if IsSpace(s[0]) then Strip(s[1..])
    else if IsSpace(s[|s| - 1]) then Strip(s[..|s| - 1])
    else s
  }

  /** `strip()` is `lstrip()` followed by `rstrip()`. */
  lemma {:induction false} StripIsRStripLStrip(s: string)
    ensures Strip(s) == RStrip(LStrip(s))
    decreases |s|
  {
    if s != [] && IsSpace(s[0]) {
      StripIsRStripLStrip(s[1..]);
      LStripSpace(s);
    } else if s != [] && IsSpace(s[|s| - 1]) {
      var t := s[..|s| - 1];
      StripIsRStripLStrip(t);
      LStripFixed(s);
      LStripFixed(t);
      RStripSpace(s);
    } else {
      LStripFixed(s);
      RStripFixed(s);
    }
  }

  lemma LStripSpace(s: string)
    requires s != [] && IsSpace(s[0])
    ensures LStrip(s) == LStrip(s[1..])
  {
  }

  lemma LStripFixed(s: string)
    requires s == [] || !IsSpace(s[0])
    ensures LStrip(s) == s
  {
  }

  lemma RStripSpace(s: string)
    requires s != [] && IsSpace(s[|s| - 1])
    ensures RStrip(s) == RStrip(s[..|s| - 1])
  {
  }

  lemma RStripFixed(s: string)
    requires s == [] || !IsSpace(s[|s| - 1])
    ensures RStrip(s) == s
  {
  }

  /** Stripping after `lstrip()` is stripping. */
  lemma {:induction false} StripOfLStrip(s: string)
    ensures Strip(LStrip(s)) == Strip(s)
    decreases |s|
  {
    if s != [] && IsSpace(s[0]) {
      StripOfLStrip(s[1..]);
    }
  }

  /** A string that neither starts nor ends with whitespace is its own `strip()`. */
  lemma StripUnspaced(s: string)
    requires s != [] && !IsSpace(s[0]) && !IsSpace(s[|s| - 1])
    ensures Strip(s) == s
  {
  }

  /** Stripping an already stripped string changes nothing. */
  lemma StripOfStripped(s: string)
    ensures Strip(Strip(s)) == Strip(s)
  {
    var r := Strip(s);
    if r != [] {
      StripUnspaced(r);
    }
  }

  /** Stripping only removes characters: none that `s` lacks appears in `strip(s)`. */
  lemma {:induction false} StripAvoids(s: string, c: char)
    requires c !in s
    ensures c !in Strip(s)
    decreases |s|
  {
    if s != [] && IsSpace(s[0]) {
      assert c !in s[1..];
      StripAvoids(s[1..], c);
    } else if s != [] && IsSpace(s[|s| - 1]) {
      assert c !in s[..|s| - 1];
      StripAvoids(s[..|s| - 1], c);
    }
  }

  // ---------------------------------------------------------------- search

  /** `t` occurs in `s` starting at index `i`. */
  predicate OccursAt(s: string, t: string, i: nat) { i + |t| <= |s| && s[i..i + |t|] == t }

  /** `s.find(t, start)`: the first index at or after `start` where `t` occurs, or -1. */
  function FindFrom(s: string, t: string, start: nat): (r: int)
    ensures r == -1 || (start <= r && OccursAt(s, t, r))
    ensures r == -1 ==> forall i :: start <= i ==> !OccursAt(s, t, i)
    ensures r >= 0 ==> forall i :: start <= i < r ==> !OccursAt(s, t, i)
    decreases |s| - start
  {
    if start + |t| > |s| then -1
    else if OccursAt(s, t, start) then start
    else FindFrom(s, t, start + 1)
  }

  /** `t in s` for strings: `t` occurs at the front of `s` or of one of its suffixes. */
  predicate Contains(s: string, t: string)
    decreases |s|
  {
    OccursAt(s, t, 0) || (s != [] && Contains(s[1..], t))
  }

  lemma {:induction false} ContainsAt(s: string, t: string, i: nat)
    requires OccursAt(s, t, i)
    ensures Contains(s, t)
    decreases i
  {
    if i > 0 {
      assert s[1..][i - 1..i - 1 + |t|] == s[i..i + |t|];
      ContainsAt(s[1..], t, i - 1);
    }
  }

  /** `t in s` exactly when `t` occurs at some index of `s`. */
  lemma {:induction false} ContainsIff(s: string, t: string)
    ensures Contains(s, t) <==> exists i: nat :: OccursAt(s, t, i)
    decreases |s|
  {
    if Contains(s, t) && !OccursAt(s, t, 0) {
      ContainsIff(s[1..], t);
      var i: nat :| OccursAt(s[1..], t, i);
      OccursAtShift(s, t, i);
    }
    if exists i: nat :: OccursAt(s, t, i) {
      var i: nat :| OccursAt(s, t, i);
      ContainsAt(s, t, i);
    }
  }

  /** `s.find(t) >= 0` is `t in s`. */
  lemma FindIffContains(s: string, t: string)
    ensures FindFrom(s, t, 0) >= 0 <==> Contains(s, t)
  {
    ContainsIff(s, t);
  }

  lemma OccursAtShift(s: string, t: string, i: nat)
    requires s != [] && OccursAt(s[1..], t, i)
    ensures OccursAt(s, t, i + 1)
  {
    assert s[i + 1..i + 1 + |t|] == s[1..][i..i + |t|];
  }

  /** The index of the first occurrence of `c` in `s`. */
  function FirstIndexOf(s: string, c: char): (i: nat)
    requires c in s
    ensures i < |s| && s[i] == c && c !in s[..i]
  {
    if s[0] == c then 0
    else
      var j := FirstIndexOf(s[1..], c);
      assert s[..j + 1] == [s[0]] + s[1..][..j];
      j + 1
  }

  // ----------------------------------------------------------------- split

  /** `s.split(c)` for a one-character separator. */
  function Split(s: string, c: char): (r: seq<string>)
    ensures |r| >= 1
    ensures forall k :: 0 <= k < |r| ==> c !in r[k]
    decreases |s|
  {
    if c in s then
      var i := FirstIndexOf(s, c);
      [s[..i]] + Split(s[i + 1..], c)
    else [s]
  }

  /** `sep.join(ss)`. */
  function Join(ss: seq<string>, sep: string): string
  {
    if |ss| == 0 then ""
    else if |ss| == 1 then ss[0]
    else ss[0] + sep + Join(ss[1..], sep)
  }

  lemma {:induction false} JoinSplit(s: string, c: char)
    ensures Join(Split(s, c), [c]) == s
    decreases |s|
  {
    if c in s {
      var i := FirstIndexOf(s, c);
      var rest := s[i + 1..];
      JoinSplit(rest, c);
      assert Split(s, c) == [s[..i]] + Split(rest, c);
      assert s == s[..i] + [c] + rest;
    }
  }

  /** The first `c` in `a + [c] + b` is the one after `a` when `a` holds none. */
  lemma FirstIndexAfter(a: string, c: char, b: string)
    requires c !in a
    ensures FirstIndexOf(a + [c] + b, c) == |a|
  {
    var s := a + [c] + b;
    var i := FirstIndexOf(s, c);
    assert s[|a|] == c;
    assert s[..|a|] == a;
    assert i <= |a| ==> s[..i] == a[..i];
  }

  /** Splitting lines joined by `c` gives them back when none of them holds `c`. */
  lemma {:induction false} SplitOfJoin(ss: seq<string>, c: char)
    requires |ss| >= 1
    requires forall k :: 0 <= k < |ss| ==> c !in ss[k]
    ensures Split(Join(ss, [c]), c) == ss
    decreases |ss|
  {
    if |ss| >= 2 {
      var tail := Join(ss[1..], [c]);
      assert Join(ss, [c]) == ss[0] + [c] + tail;
      SplitCons(ss[0], c, tail);
      SplitOfJoin(ss[1..], c);
      assert ss == [ss[0]] + ss[1..];
    }
  }

  /** Splitting at the first separator gives the text before it, then the split of the rest. */
  lemma SplitCons(a: string, c: char, b: string)
    requires c !in a
    ensures Split(a + [c] + b, c) == [a] + Split(b, c)
  {
    var s := a + [c] + b;
    assert s[|a|] == c;
    FirstIndexAfter(a, c, b);
    assert s[..|a|] == a && s[|a| + 1..] == b;
  }

  /** A character missing from `s` is missing from every part of its split. */
  lemma {:induction false} SplitAvoids(s: string, c: char, d: char)
    requires d !in s
    ensures forall k :: 0 <= k < |Split(s, c)| ==> d !in Split(s, c)[k]
    decreases |s|
  {
    if c in s {
      var i := FirstIndexOf(s, c);
      assert d !in s[..i] && d !in s[i + 1..];
      SplitAvoids(s[i + 1..], c, d);
    }
  }

  /** Joining two non-empty lists is joining each and putting the separator between. */
  lemma {:induction false} JoinAppend(a: seq<string>, b: seq<string>, sep: string)
    requires a != [] && b != []
    ensures Join(a + b, sep) == Join(a, sep) + sep + Join(b, sep)
    decreases |a|
  {
    if |a| == 1 {
      assert (a + b)[1..] == b;
    } else {
      assert (a + b)[1..] == a[1..] + b;
      JoinAppend(a[1..], b, sep);
    }
  }

  /** Parts that start and end visibly join into a string that stripping leaves alone. */
  lemma JoinVisible(ss: seq<string>, sep: string)
    requires forall k :: 0 <= k < |ss| ==> ss[k] != [] && !IsSpace(ss[k][0]) && !IsSpace(ss[k][|ss[k]| - 1])
    ensures Strip(Join(ss, sep)) == Join(ss, sep)
  {
    if ss != [] {
      var j := Join(ss, sep);
      var last := ss[|ss| - 1];
      JoinEndsWithLast(ss, sep);
      assert j[0] == ss[0][0];
      assert j[|j| - 1] == last[|last| - 1];
      StripUnspaced(j);
    }
  }

  /** Trailing whitespace after a prefix that ends in a visible character leaves the prefix. */
  lemma RStripKeeps(p: string, t: string)
    requires p != [] && !IsSpace(p[|p| - 1])
    ensures StartsWith(RStrip(p + t), p)
  {
    var s := p + t;
    var r := RStrip(s);
    assert s[|p| - 1] == p[|p| - 1];
    assert |r| >= |p|;
    assert r[..|p|] == s[..|p|] == p;
  }

  /** A string that starts with a visible character is stripped at its end only. */
  lemma StripVisibleStart(s: string)
    requires s != [] && !IsSpace(s[0])
    ensures Strip(s) == RStrip(s)
  {
    StripIsRStripLStrip(s);
    LStripFixed(s);
  }

  /** A join ends with its last part. */
  lemma {:induction false} JoinEndsWithLast(ss: seq<string>, sep: string)
    requires |ss| >= 1
    ensures EndsWith(Join(ss, sep), ss[|ss| - 1])
    decreases |ss|
  {
    if |ss| >= 2 {
      JoinEndsWithLast(ss[1..], sep);
      var j := Join(ss[1..], sep);
      var t := ss[|ss| - 1];
      assert ss[1..][|ss[1..]| - 1] == t;
      var whole := ss[0] + sep + j;
      assert whole[|whole| - |t|..] == j[|j| - |t|..];
    }
  }

  /** Length of the longest whitespace-free prefix of `s`. */
  function WordLen(s: string): (n: nat)
    ensures n <= |s|
    ensures forall i :: 0 <= i < n ==> !IsSpace(s[i])
    ensures n == |s| || IsSpace(s[n])
  {
    if s != [] && !IsSpace(s[0]) then 1 + WordLen(s[1..]) else 0
  }

  /** Every entry is a non-empty run of non-whitespace characters. */
  predicate AllWords(r: seq<string>) { forall k :: 0 <= k < |r| ==> r[k] != [] && NoSpace(r[k]) }

  /** `s.split()`: the maximal runs of non-whitespace characters. */
  function Words(s: string): (r: seq<string>)
    ensures AllWords(r)
    decreases |s|
  {
    if s == [] then []
    else if IsSpace(s[0]) then Words(s[1..])
    else
      var n := WordLen(s);
      var w := s[..n];
      var rest := Words(s[n..]);
      assert w != [] && NoSpace(w);
      var r := [w] + rest;
      assert AllWords(r) by {
        forall k | 0 <= k < |r| ensures r[k] != [] && NoSpace(r[k]) {
          if k > 0 { assert r[k] == rest[k - 1]; }
        }
      }
      r
  }

  lemma WordsAfterSpace(x: string)
    ensures Words(" " + x) == Words(x)
  {
    assert (" " + x)[1..] == x;
  }

  lemma WordsOfWord(w: string, rest: string)
    requires w != [] && NoSpace(w)
    requires rest == [] || rest[0] == ' '
    ensures Words(w + rest) == [w] + Words(rest)
  {
    var s := w + rest;
    SpanOfWord(w, rest);
    assert s[..|w|] == w && s[|w|..] == rest;
  }

  lemma {:induction false} SpanOfWord(w: string, rest: string)
    requires NoSpace(w)
    requires rest == [] || rest[0] == ' '
    ensures WordLen(w + rest) == |w|
    decreases |w|
  {
    if w != [] {
      assert (w + rest)[1..] == w[1..] + rest;
      SpanOfWord(w[1..], rest);
    }
  }

  lemma WordsOfSingle(w: string)
    requires w != [] && NoSpace(w)
    ensures Words(w) == [w]
  {
    WordsOfWord(w, "");
    assert w + "" == w;
  }

  lemma WordsOfJoinCons(w: string, tail: string, ws: seq<string>)
    requires w != [] && NoSpace(w)
    requires Words(tail) == ws
    ensures Words(w + (" " + tail)) == [w] + ws
  {
    WordsAfterSpace(tail);
    WordsOfWord(w, " " + tail);
  }

  lemma AllWordsTail(ws: seq<string>)
    requires AllWords(ws) && |ws| > 0
    ensures AllWords(ws[1..]) && ws[0] != [] && NoSpace(ws[0])
  {
    forall k | 0 <= k < |ws| - 1 ensures ws[1..][k] != [] && NoSpace(ws[1..][k]) {
      assert ws[1..][k] == ws[k + 1];
    }
  }

  lemma JoinCons(ws: seq<string>, sep: string)
    requires |ws| >= 2
    ensures Join(ws, sep) == ws[0] + (sep + Join(ws[1..], sep))
  {
  }

  lemma HeadTail(ws: seq<string>)
    requires |ws| > 0
    ensures [ws[0]] + ws[1..] == ws
  {
  }

  lemma WordsOfJoinStep(ws: seq<string>)
    requires |ws| >= 2 && ws[0] != [] && NoSpace(ws[0])
    requires Words(Join(ws[1..], " ")) == ws[1..]
    ensures Words(Join(ws, " ")) == ws
  {
    var tail := Join(ws[1..], " ");
    calc {
      Words(Join(ws, " "));
      { JoinCons(ws, " "); }
      Words(ws[0] + (" " + tail));
      { WordsOfJoinCons(ws[0], tail, ws[1..]); }
      [ws[0]] + ws[1..];
      { HeadTail(ws); }
      ws;
    }
  }

  /** Joining space-free, non-empty words by single spaces and splitting again gives them back. */
  lemma {:induction false} WordsOfJoin(ws: seq<string>)
    requires AllWords(ws)
    ensures Words(Join(ws, " ")) == ws
  {
    if |ws| == 1 {
      WordsOfSingle(ws[0]);
    } else if |ws| >= 2 {
      AllWordsTail(ws);
      WordsOfJoin(ws[1..]);
      WordsOfJoinStep(ws);
    }
  }

  predicate NoLineBreak(s: string) { forall i :: 0 <= i < |s| ==> !IsLineBreak(s[i]) }

  /** `s.splitlines()`: no line keeps a break character and a final break adds no empty line. */
  function SplitLines(s: string): (r: seq<string>)
    ensures forall k :: 0 <= k < |r| ==> NoLineBreak(r[k])
    ensures |r| <= |s|
    ensures s != [] ==> |r| >= 1
    decreases |s|
  {
    if s == [] then []
    else
      var n := Span(s, NotLineBreak);
      if n == |s| then [s]
      else
        var skip := if s[n] == '\r' && n + 1 < |s| && s[n + 1] == '\n' then 2 else 1;
        [s[..n]] + SplitLines(s[n + skip..])
  }

  /** A line without breaks followed by a newline splits off as the first line. */
  lemma SplitLinesAfterLine(u: string, rest: string)
    requires NoLineBreak(u)
    ensures SplitLines(u + ("\n" + rest)) == [u] + SplitLines(rest)
  {
    var s := u + ("\n" + rest);
    SpanOfPrefix(u, "\n" + rest, NotLineBreak);
    assert s[|u|] == '\n';
    assert s[..|u|] == u && s[|u| + 1..] == rest;
  }

  /** Joining a first line without breaks to lines that split back into themselves. */
  lemma SplitLinesOfJoinStep(ls: seq<string>)
    requires |ls| >= 2 && NoLineBreak(ls[0])
    requires SplitLines(Join(ls[1..], "\n")) == ls[1..]
    ensures SplitLines(Join(ls, "\n")) == ls
  {
    var rest := Join(ls[1..], "\n");
    assert Join(ls, "\n") == ls[0] + ("\n" + rest);
    SplitLinesAfterLine(ls[0], rest);
    assert ls == [ls[0]] + ls[1..];
  }

  /** Lines without break characters, joined by newlines, split back into themselves when the last is not empty. */
  lemma {:induction false} SplitLinesOfJoin(ls: seq<string>)
    requires forall k :: 0 <= k < |ls| ==> NoLineBreak(ls[k])
    requires ls != [] ==> ls[|ls| - 1] != []
    ensures SplitLines(Join(ls, "\n")) == ls
    decreases |ls|
  {
    if |ls| == 1 {
      SpanOfPrefix(ls[0], [], NotLineBreak);
      assert ls[0] + [] == ls[0];
    } else if |ls| >= 2 {
      var tail := ls[1..];
      forall k | 0 <= k < |tail| ensures NoLineBreak(tail[k]) {
        assert tail[k] == ls[k + 1];
      }
      SplitLinesOfJoin(tail);
      SplitLinesOfJoinStep(ls);
    }
  }

  // ------------------------------------------------------- replace, count

  /** Where the pattern does not start the text, its first character is kept. */
  lemma ReplaceAllSkip(s: string, pat: string, rep: string)
    requires |pat| > 0 && |s| >= |pat| && s[..|pat|] != pat
    ensures ReplaceAll(s, pat, rep) == [s[0]] + ReplaceAll(s[1..], pat, rep)
  {
  }

  /** `s.replace(pat, rep)`: every non-overlapping occurrence, left to right. */
  function ReplaceAll(s: string, pat: string, rep: string): (r: string)
    requires |pat| > 0
    ensures !Contains(s, pat) ==> r == s
    decreases |s|
  {
    if |s| < |pat| then s
    else if s[..|pat|] == pat then
      rep + ReplaceAll(s[|pat|..], pat, rep)
    else
      assert !Contains(s, pat) ==> !Contains(s[1..], pat);
      [s[0]] + ReplaceAll(s[1..], pat, rep)
  }

  /** Replacing every one-character `c` by another character leaves no `c`. */
  lemma {:induction false} ReplaceAllRemoves(s: string, c: char, d: char)
    requires c != d
    ensures c !in ReplaceAll(s, [c], [d])
    decreases |s|
  {
    if |s| >= 1 {
      ReplaceAllRemoves(s[1..], c, d);
      assert s[..1] == [s[0]];
    }
  }

  /** `text.replace("\r\n", "\n").replace("\r", "\n")`, which is also what a text-mode read does to line endings. */
  function NormalizeNewlines(text: string): (r: string)
    ensures '\r' !in r
  {
    var once := ReplaceAll(text, "\r\n", "\n");
    ReplaceAllRemoves(once, '\r', '\n');
    ReplaceAll(once, "\r", "\n")
  }

  /**
   * The lines a text-mode file iterates over, without their line endings: a
   * final newline ends the last line rather than starting an empty one.
   */
  function FileLines(content: string): (r: seq<string>)
    ensures forall k :: 0 <= k < |r| ==> '\n' !in r[k] && '\r' !in r[k]
  {
    var normal := NormalizeNewlines(content);
    var parts := Split(normal, '\n');
    SplitAvoids(normal, '\n', '\r');
    if parts[|parts| - 1] == "" then parts[..|parts| - 1] else parts
  }

  /** `s.count(t)`: non-overlapping occurrences, left to right. */
  function CountSub(s: string, t: string): (n: nat)
    requires |t| > 0
    ensures n * |t| <= |s|
    decreases |s|
  {
    if |s| < |t| then 0
    else if s[..|t|] == t then 1 + CountSub(s[|t|..], t)
    else CountSub(s[1..], t)
  }

  /**
   * The number of matches `re.findall` reports when matching resumes at the
   * end of each match and otherwise one position later.  `m(s, p)` is the end
   * of the match starting at `p`, or any value not above `p` when none starts there.
   */
  function CountMatches(s: string, m: (string, nat) -> int, p: nat): (n: nat)
    ensures p <= |s| ==> n <= |s| - p
    decreases |s| - p
  {
    if p >= |s| then 0
    else
      var e := m(s, p);
      if p < e <= |s| then 1 + CountMatches(s, m, e) else CountMatches(s, m, p + 1)
  }

  /** Matching reports nothing exactly when no position from `p` on starts a match. */
  lemma {:induction false} CountMatchesZeroIff(s: string, m: (string, nat) -> int, p: nat)
    ensures CountMatches(s, m, p) == 0 <==> forall i :: p <= i < |s| ==> !(i < m(s, i) <= |s|)
    decreases |s| - p
  {
    if p < |s| {
      var e := m(s, p);
      if !(p < e <= |s|) {
        CountMatchesZeroIff(s, m, p + 1);
        forall i | p <= i < |s| && i < m(s, i) <= |s| ensures i > p { }
      }
    }
  }

  // -------------------------------------------------------------- numbers

  function DigitChar(d: nat): (c: char)
    requires d < 10
    ensures IsDigit(c) && c as int - '0' as int == d
  {
    ('0' as int + d) as char
  }

  /** `str(n)` for a natural number. */
  function NatToString(n: nat): (r: string)
    ensures |r| >= 1
    ensures forall i :: 0 <= i < |r| ==> IsDigit(r[i])
    ensures n >= 10 ==> r[0] != '0'
    decreases n
  {
    if n < 10 then [DigitChar(n)] else NatToString(n / 10) + [DigitChar(n % 10)]
  }

  /** A number below 100 on two digits, with a leading zero: `f"{n:02d}"`. */
  function TwoDigits(n: nat): (id: string)
    requires n < 100
    ensures |id| == 2 && AllDigits(id) && DigitsValue(id) == n
  {
    var id := [DigitChar(n / 10), DigitChar(n % 10)];
    assert id[..1] == [DigitChar(n / 10)] && [DigitChar(n / 10)][..0] == [];
    assert DigitsValue(id[..1]) == n / 10;
    id
  }

  /** `str(i)` for any integer. */
  function IntToString(i: int): string
  {
    if i < 0 then "-" + NatToString(-i) else NatToString(i)
  }

  predicate AllDigits(s: string) { forall i :: 0 <= i < |s| ==> IsDigit(s[i]) }

  /** The value of a string of decimal digits. */
  function DigitsValue(s: string): nat
    requires AllDigits(s)
  {
    if s == [] then 0 else 10 * DigitsValue(s[..|s| - 1]) + (s[|s| - 1] as int - '0' as int)
  }

  /** Reading back the decimal text of `n` gives `n`. */
  lemma {:induction false} DigitsValueOfNatToString(n: nat)
    ensures DigitsValue(NatToString(n)) == n
    decreases n
  {
    if n >= 10 {
      DigitsValueOfNatToString(n / 10);
      var r := NatToString(n);
      assert r[..|r| - 1] == NatToString(n / 10);
    }
  }
}
