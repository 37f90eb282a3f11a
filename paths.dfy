/**
 * The parts of a POSIX path that `pathlib` exposes as `name`, `suffix` and
 * `stem`.  A path is split at `/`; empty parts and `.` parts are dropped.
 */
module Paths {
  import opened Str
  import Seqs

  predicate IsPart(p: string) { p != [] && p != "." }

  /** `PurePosixPath(t).parts` without the root. */
  function Parts(t: string): seq<string>
  {
    Seqs.Filter(Split(t, '/'), IsPart)
  }

  /** `PurePosixPath(t).name`: the last part, or empty when there is none. */
  function Name(t: string): (r: string)
    ensures '/' !in r
  {
    var ps := Parts(t);
    if ps == [] then ""
    else
      assert ps[|ps| - 1] in Split(t, '/');
      ps[|ps| - 1]
  }

  /** The index of the last `c` in `s`, or -1. */
  function LastIndexOf(s: string, c: char): (i: int)
    ensures -1 <= i < |s|
    ensures i >= 0 ==> s[i] == c && forall j :: i < j < |s| ==> s[j] != c
    ensures i == -1 ==> c !in s
  {
    if s == [] then -1
    else if s[|s| - 1] == c then |s| - 1
    else LastIndexOf(s[..|s| - 1], c)
  }

  /** `suffix` of a name: from its last dot, when that dot is neither first nor last. */
  function NameSuffix(name: string): (r: string)
    ensures r == [] || (r[0] == '.' && '.' !in r[1..] && |r| >= 2 && |r| < |name| && EndsWith(name, r))
  {
    var i := LastIndexOf(name, '.');
    if 0 < i < |name| - 1 then
      assert forall j :: 1 <= j < |name[i..]| ==> name[i..][j] == name[i + j];
      name[i..]
    else ""
  }

  function Suffix(t: string): string { NameSuffix(Name(t)) }

  /** `stem`: the name without its suffix. */
  function Stem(t: string): (r: string)
    ensures r + Suffix(t) == Name(t)
  {
    var name := Name(t);
    var sfx := NameSuffix(name);
    assert name == name[..|name| - |sfx|] + name[|name| - |sfx|..];
    name[..|name| - |sfx|]
  }

  /** A name has suffix `.md` in any case exactly when it has at least one character before a final `.md`. */
  lemma {:induction false} MarkdownSuffix(name: string)
    ensures Lower(NameSuffix(name)) == ".md" <==> |name| >= 4 && Lower(name[|name| - 3..]) == ".md"
  {
    var r := NameSuffix(name);
    if Lower(r) == ".md" {
      assert |r| == 3;
      assert name[|name| - 3..] == r;
    }
    if |name| >= 4 && Lower(name[|name| - 3..]) == ".md" {
      var t := name[|name| - 3..];
      assert LowerChar(t[0]) == '.' && LowerChar(t[1]) == 'm' && LowerChar(t[2]) == 'd';
      assert t[0] == '.' && t[1] != '.' && t[2] != '.';
      var i := LastIndexOf(name, '.');
      assert name[|name| - 3] == '.';
      assert i == |name| - 3;
      assert r == t;
    }
  }
}
