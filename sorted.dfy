/**
 * Python's `sorted(...)` on natural numbers: `Sort` keeps duplicates (a sorted
 * list), `SortedSet` drops them (a sorted set).
 */
module Sorted {
  import Seqs

  predicate NonDecreasing(s: seq<nat>) { forall i, j :: 0 <= i < j < |s| ==> s[i] <= s[j] }

  predicate Increasing(s: seq<nat>) { forall i, j :: 0 <= i < j < |s| ==> s[i] < s[j] }

  lemma NonDecreasingCons(h: nat, t: seq<nat>)
    requires NonDecreasing(t) && forall j :: 0 <= j < |t| ==> h <= t[j]
    ensures NonDecreasing([h] + t)
  {
  }

  lemma IncreasingCons(h: nat, t: seq<nat>)
    requires Increasing(t) && forall j :: 0 <= j < |t| ==> h < t[j]
    ensures Increasing([h] + t)
  {
  }

  /** `x` inserted into a sorted list before the first larger element. */
  function InsertSorted(x: nat, s: seq<nat>): (r: seq<nat>)
    requires NonDecreasing(s)
    ensures NonDecreasing(r)
    ensures multiset(r) == multiset(s) + multiset{x}
    ensures forall y :: y in r <==> y == x || y in s
    ensures Increasing(s) && x !in s ==> Increasing(r)
  {
    if s == [] then [x]
    else if x <= s[0] then [x] + s
    else
      var t := InsertSorted(x, s[1..]);
      InsertAfterHead(x, s, t);
      [s[0]] + t
  }

  /** The recursive case of `InsertSorted`: the head stays in front of the insertion into the tail. */
  lemma InsertAfterHead(x: nat, s: seq<nat>, t: seq<nat>)
    requires NonDecreasing(s) && s != [] && s[0] < x
    requires NonDecreasing(t) && multiset(t) == multiset(s[1..]) + multiset{x}
    requires forall y :: y in t <==> y == x || y in s[1..]
    requires Increasing(s[1..]) && x !in s[1..] ==> Increasing(t)
    ensures NonDecreasing([s[0]] + t)
    ensures multiset([s[0]] + t) == multiset(s) + multiset{x}
    ensures forall y :: y in [s[0]] + t <==> y == x || y in s
    ensures Increasing(s) && x !in s ==> Increasing([s[0]] + t)
  {
    assert s == [s[0]] + s[1..];
    forall j | 0 <= j < |t| ensures s[0] <= t[j] && (Increasing(s) ==> s[0] < t[j]) {
      assert t[j] in t;
    }
    NonDecreasingCons(s[0], t);
    if Increasing(s) && x !in s { IncreasingCons(s[0], t); }
  }

  /** `sorted(xs)`: the elements of `xs` with their multiplicities, in ascending order. */
  function Sort(xs: seq<nat>): (r: seq<nat>)
    ensures NonDecreasing(r)
    ensures multiset(r) == multiset(xs)
    ensures Seqs.Distinct(xs) ==> Increasing(r)
  {
    if xs == [] then []
    else
      var init := xs[..|xs| - 1];
      var last := xs[|xs| - 1];
      assert xs == init + [last];
      var t := Sort(init);
      assert Seqs.Distinct(xs) ==> Seqs.Distinct(init) && last !in t by {
        if Seqs.Distinct(xs) {
          assert last !in init;
          assert last !in multiset(t);
        }
      }
      InsertSorted(last, t)
  }

  /** `x` added to a strictly increasing list unless it is already there. */
  function InsertSet(x: nat, s: seq<nat>): (r: seq<nat>)
    requires Increasing(s)
    ensures Increasing(r)
    ensures forall y :: y in r <==> y == x || y in s
  {
    if s == [] then [x]
    else if x < s[0] then [x] + s
    else if x == s[0] then s
    else
      var t := InsertSet(x, s[1..]);
      assert s == [s[0]] + s[1..];
      assert Increasing([s[0]] + t) by {
        forall j | 0 <= j < |t| ensures s[0] < t[j] {
          assert t[j] in t;
        }
        IncreasingCons(s[0], t);
      }
      [s[0]] + t
  }

  /** `sorted(set(xs))`: each element of `xs` once, in ascending order. */
  function SortedSet(xs: seq<nat>): (r: seq<nat>)
    ensures Increasing(r)
    ensures forall y :: y in r <==> y in xs
  {
    if xs == [] then []
    else
      var init := xs[..|xs| - 1];
      assert xs == init + [xs[|xs| - 1]];
      InsertSet(xs[|xs| - 1], SortedSet(init))
  }

  /** `x` grows the set by one exactly when it is new. */
  lemma {:induction false} InsertSetSize(x: nat, s: seq<nat>)
    requires Increasing(s)
    ensures |InsertSet(x, s)| == if x in s then |s| else |s| + 1
  {
    if s != [] && x > s[0] {
      assert s == [s[0]] + s[1..];
      InsertSetSize(x, s[1..]);
    } else if s != [] && x < s[0] {
      assert x !in s by {
        forall j | 0 <= j < |s| ensures s[j] != x { assert s[0] <= s[j]; }
      }
    }
  }

  /** `len(sorted(set(xs))) == len(xs)` exactly when `xs` has no repeats. */
  lemma {:induction false} SortedSetSize(xs: seq<nat>)
    ensures |SortedSet(xs)| <= |xs|
    ensures |SortedSet(xs)| == |xs| <==> Seqs.Distinct(xs)
  {
    if xs != [] {
      var init := xs[..|xs| - 1];
      var x := xs[|xs| - 1];
      assert xs == init + [x];
      SortedSetSize(init);
      InsertSetSize(x, SortedSet(init));
      assert Seqs.Distinct(xs) <==> Seqs.Distinct(init) && x !in init by {
        if Seqs.Distinct(init) && x !in init {
          forall i, j | 0 <= i < j < |xs| ensures xs[i] != xs[j] {
            if j == |xs| - 1 { assert xs[i] in init; }
          }
        }
        if Seqs.Distinct(xs) {
          forall i | 0 <= i < |init| ensures init[i] != x { assert xs[i] != xs[|xs| - 1]; }
        }
      }
    }
  }

  /** A strictly increasing list is determined by its elements. */
  lemma {:induction false} IncreasingUnique(a: seq<nat>, b: seq<nat>)
    requires Increasing(a) && Increasing(b)
    requires forall y :: y in a <==> y in b
    ensures a == b
  {
    if a != [] || b != [] {
      assert a != [] ==> a[0] in b;
      assert b != [] ==> b[0] in a;
      assert a[0] == b[0] by {
        assert a[0] in b && b[0] in a;
      }
      assert a == [a[0]] + a[1..] && b == [b[0]] + b[1..];
      forall y ensures y in a[1..] <==> y in b[1..] {
        if y in a[1..] { assert a[0] < y && y in b; }
        if y in b[1..] { assert b[0] < y && y in a; }
      }
      IncreasingUnique(a[1..], b[1..]);
    }
  }

  /** Sorting a list without repeats gives its sorted set. */
  lemma SortOfDistinct(xs: seq<nat>)
    requires Seqs.Distinct(xs)
    ensures Sort(xs) == SortedSet(xs)
  {
    var r := Sort(xs);
    forall y ensures y in r <==> y in xs {
      assert y in r <==> y in multiset(r);
      assert y in xs <==> y in multiset(xs);
    }
    IncreasingUnique(r, SortedSet(xs));
  }

  /** `list(range(n))`. */
  function Range(n: nat): (r: seq<nat>)
    ensures |r| == n
    ensures forall i :: 0 <= i < n ==> r[i] == i
    ensures Increasing(r)
    ensures forall x: nat :: x in r <==> x < n
  {
    if n == 0 then [] else Range(n - 1) + [n - 1]
  }

  /** Ordered by descending `key`, as `sorted(xs, key=key, reverse=True)` leaves a list. */
  predicate DescendingBy<T>(xs: seq<T>, key: T -> nat)
  {
    forall i, j :: 0 <= i < j < |xs| ==> key(xs[i]) >= key(xs[j])
  }

  /** `x` placed before the first element with a smaller key: equal keys keep their order. */
  function InsertDescBy<T(==)>(x: T, s: seq<T>, key: T -> nat): (r: seq<T>)
    requires DescendingBy(s, key)
    ensures DescendingBy(r, key)
    ensures multiset(r) == multiset(s) + multiset{x}
  {
    if s == [] then [x]
    else if key(s[0]) < key(x) then [x] + s
    else
      var t := InsertDescBy(x, s[1..], key);
      assert s == [s[0]] + s[1..];
      InsertDescAfterHead(x, s, t, key);
      [s[0]] + t
  }

  /** The recursive case of `InsertDescBy`: the head stays in front of the insertion into the tail. */
  lemma InsertDescAfterHead<T>(x: T, s: seq<T>, t: seq<T>, key: T -> nat)
    requires DescendingBy(s, key) && s != [] && key(x) <= key(s[0])
    requires DescendingBy(t, key) && multiset(t) == multiset(s[1..]) + multiset{x}
    ensures DescendingBy([s[0]] + t, key)
  {
    forall j | 0 <= j < |t| ensures key(s[0]) >= key(t[j]) {
      assert t[j] in multiset(t);
      if t[j] != x {
        assert t[j] in multiset(s[1..]);
        var k :| 0 <= k < |s[1..]| && s[1..][k] == t[j];
        assert s[k + 1] == t[j];
      }
    }
    var r := [s[0]] + t;
    forall i, j | 0 <= i < j < |r| ensures key(r[i]) >= key(r[j]) {
      if i > 0 { assert r[i] == t[i - 1] && r[j] == t[j - 1]; }
    }
  }

  /** `sorted(xs, key=key, reverse=True)`: insertion of each element in turn. */
  function SortDescBy<T(==)>(xs: seq<T>, key: T -> nat): (r: seq<T>)
    ensures DescendingBy(r, key)
    ensures multiset(r) == multiset(xs)
  {
    if xs == [] then []
    else
      var init := xs[..|xs| - 1];
      assert xs == init + [xs[|xs| - 1]];
      InsertDescBy(xs[|xs| - 1], SortDescBy(init, key), key)
  }

  /** Sorting keeps exactly the elements it was given, every one as often. */
  lemma SortDescByMembers<T>(xs: seq<T>, key: T -> nat, x: T)
    ensures x in SortDescBy(xs, key) <==> x in xs
    ensures |SortDescBy(xs, key)| == |xs|
  {
    assert x in SortDescBy(xs, key) <==> x in multiset(SortDescBy(xs, key));
    assert x in xs <==> x in multiset(xs);
    assert |multiset(SortDescBy(xs, key))| == |multiset(xs)|;
  }
}
