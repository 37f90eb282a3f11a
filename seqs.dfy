/**
 * List comprehensions the tooling uses everywhere: `[x for x in xs if p(x)]`
 * and the filter-and-map form, with their membership laws.
 */
module Seqs {
  import opened Wrappers

  /** `[x for x in xs if p(x)]`. */
  function Filter<A(!new)>(xs: seq<A>, p: A -> bool): (r: seq<A>)
    ensures |r| <= |xs|
    ensures forall x :: x in r <==> x in xs && p(x)
  {
    if xs == [] then []
    else
      var init := xs[..|xs| - 1];
      var x := xs[|xs| - 1];
      assert xs == init + [x];
      Filter(init, p) + (if p(x) then [x] else [])
  }

  /** Nothing passes a filter that rejects every element. */
  lemma {:induction false} FilterNone<A(!new)>(xs: seq<A>, p: A -> bool)
    requires forall i :: 0 <= i < |xs| ==> !p(xs[i])
    ensures Filter(xs, p) == []
  {
    if xs != [] {
      FilterNone(xs[..|xs| - 1], p);
    }
  }

  lemma {:induction false} FilterAppend<A(!new)>(xs: seq<A>, ys: seq<A>, p: A -> bool)
    ensures Filter(xs + ys, p) == Filter(xs, p) + Filter(ys, p)
    decreases |ys|
  {
    if ys == [] {
      assert xs + ys == xs;
    } else {
      var init := ys[..|ys| - 1];
      var y := ys[|ys| - 1];
      InitLast(ys);
      assert xs + ys == (xs + init) + [y];
      FilterAppend(xs, init, p);
      FilterSnoc(xs + init, y, p);
      FilterSnoc(init, y, p);
      AppendAssoc(Filter(xs, p), Filter(init, p), if p(y) then [y] else []);
    }
  }

  /** One more element passes the filter or is dropped, at the end. */
  lemma FilterSnoc<A(!new)>(xs: seq<A>, x: A, p: A -> bool)
    ensures Filter(xs + [x], p) == Filter(xs, p) + (if p(x) then [x] else [])
  {
    assert (xs + [x])[..|xs|] == xs;
  }

  /** A non-empty sequence is its front followed by its last element. */
  lemma InitLast<A>(xs: seq<A>)
    requires xs != []
    ensures xs == xs[..|xs| - 1] + [xs[|xs| - 1]]
  {
  }

  /** A prefix one longer is the prefix with the next element added. */
  lemma PrefixSnoc<A>(xs: seq<A>, i: nat)
    requires i < |xs|
    ensures xs[..i + 1] == xs[..i] + [xs[i]]
  {
  }

  lemma PrefixAll<A>(xs: seq<A>)
    ensures xs[..|xs|] == xs
  {
  }

  lemma AppendAssoc<A>(a: seq<A>, b: seq<A>, c: seq<A>)
    ensures (a + b) + c == a + (b + c)
  {
  }

  /** A filter that every element passes keeps the whole list. */
  lemma {:induction false} FilterAll<A(!new)>(xs: seq<A>, p: A -> bool)
    requires forall i :: 0 <= i < |xs| ==> p(xs[i])
    ensures Filter(xs, p) == xs
  {
    if xs != [] {
      var init := xs[..|xs| - 1];
      FilterAll(init, p);
      InitLast(xs);
    }
  }

  /** Two filters that share every element of `p` between them, one each, share out its count. */
  lemma {:induction false} FilterSplit<A(!new)>(xs: seq<A>, p: A -> bool, q: A -> bool, r: A -> bool)
    requires forall i :: 0 <= i < |xs| ==> (p(xs[i]) <==> q(xs[i]) || r(xs[i])) && !(q(xs[i]) && r(xs[i]))
    ensures |Filter(xs, p)| == |Filter(xs, q)| + |Filter(xs, r)|
  {
    if xs != [] {
      var init := xs[..|xs| - 1];
      assert forall i :: 0 <= i < |init| ==> init[i] == xs[i];
      FilterSplit(init, p, q, r);
    }
  }

  /** `sum(1 for x in xs if p(x))`, counted in a loop. */
  method Count<A(!new)>(xs: seq<A>, p: A -> bool) returns (n: nat)
    ensures n == |Filter(xs, p)|
  {
    n := 0;
    for i := 0 to |xs|
      invariant n == |Filter(xs[..i], p)|
    {
      PrefixSnoc(xs, i);
      FilterSnoc(xs[..i], xs[i], p);
      if p(xs[i]) {
        n := n + 1;
      }
    }
    PrefixAll(xs);
  }

  /** The index of the first element satisfying `p`, `|xs|` when there is none. */
  function FirstIndex<A>(xs: seq<A>, p: A -> bool): (k: nat)
    ensures k <= |xs|
    ensures k < |xs| ==> p(xs[k])
    ensures forall j :: 0 <= j < k ==> !p(xs[j])
  {
    if xs == [] then 0
    else if p(xs[0]) then 0
    else
      var k := FirstIndex(xs[1..], p);
      assert forall j :: 1 <= j < |xs| ==> xs[j] == xs[1..][j - 1];
      1 + k
  }

  /** `k` is the first index satisfying `p` exactly when `p` holds there and nowhere before. */
  lemma FirstIndexIff<A>(xs: seq<A>, p: A -> bool, k: nat)
    requires k < |xs|
    ensures FirstIndex(xs, p) == k <==> p(xs[k]) && forall j :: 0 <= j < k ==> !p(xs[j])
  {
  }

  predicate Distinct<A(==)>(xs: seq<A>) { forall i, j :: 0 <= i < j < |xs| ==> xs[i] != xs[j] }

  /** No element occurs twice in a list without repeats. */
  lemma {:induction false} DistinctOnce<A>(xs: seq<A>, x: A)
    requires Distinct(xs)
    ensures multiset(xs)[x] <= 1
  {
    if xs != [] {
      var init := xs[..|xs| - 1];
      InitLast(xs);
      DistinctOnce(init, x);
      if xs[|xs| - 1] == x {
        forall k | 0 <= k < |init| ensures init[k] != x {
          assert init[k] == xs[k];
        }
      }
    }
  }

  /** The elements of a list, as a set. */
  function Elements<A>(xs: seq<A>): set<A> { set x | x in xs }

  /** A list without repeats has as many elements as its set. */
  lemma {:induction false} DistinctCard<A>(xs: seq<A>)
    requires Distinct(xs)
    ensures |Elements(xs)| == |xs|
  {
    if xs != [] {
      var init := xs[..|xs| - 1];
      var x := xs[|xs| - 1];
      InitLast(xs);
      assert Distinct(init) by {
        forall i, j | 0 <= i < j < |init| ensures init[i] != init[j] {
          assert init[i] == xs[i] && init[j] == xs[j];
        }
      }
      DistinctCard(init);
      assert x !in Elements(init) by {
        forall k | 0 <= k < |init| ensures init[k] != x {
          assert init[k] == xs[k];
        }
      }
      assert Elements(xs) == Elements(init) + {x};
    }
  }

  /** Two lists without repeats that hold the same elements have the same length. */
  lemma SameElementsSameLength<A>(xs: seq<A>, ys: seq<A>)
    requires Distinct(xs) && Distinct(ys)
    requires forall x :: x in xs <==> x in ys
    ensures |xs| == |ys|
  {
    DistinctCard(xs);
    DistinctCard(ys);
    assert Elements(xs) == Elements(ys);
  }

  /** A filter keeps a list free of repeats. */
  lemma {:induction false} FilterDistinct<A(!new)>(xs: seq<A>, p: A -> bool)
    requires Distinct(xs)
    ensures Distinct(Filter(xs, p))
  {
    if xs != [] {
      var init := xs[..|xs| - 1];
      var x := xs[|xs| - 1];
      InitLast(xs);
      assert Distinct(init) by {
        forall i, j | 0 <= i < j < |init| ensures init[i] != init[j] {
          assert init[i] == xs[i] && init[j] == xs[j];
        }
      }
      FilterDistinct(init, p);
      var f := Filter(init, p);
      if p(x) {
        assert x !in f by {
          forall k | 0 <= k < |init| ensures init[k] != x {
            assert init[k] == xs[k];
          }
        }
        assert Distinct(f + [x]) by {
          forall i, j | 0 <= i < j < |f| + 1 ensures (f + [x])[i] != (f + [x])[j] {
            if j == |f| {
              assert (f + [x])[i] == f[i] && f[i] in f;
            } else {
              assert (f + [x])[i] == f[i] && (f + [x])[j] == f[j];
            }
          }
        }
      } else {
        assert f + [] == f;
      }
    }
  }

  /** A permutation of a list without repeats has none either. */
  lemma DistinctPermuted<A>(xs: seq<A>, ys: seq<A>)
    requires Distinct(xs) && multiset(xs) == multiset(ys)
    ensures Distinct(ys)
  {
    forall i, j | 0 <= i < j < |ys| ensures ys[i] != ys[j] {
      if ys[i] == ys[j] {
        var x := ys[i];
        assert ys == ys[..i] + [x] + ys[i + 1..j] + [ys[j]] + ys[j + 1..];
        assert multiset(ys)[x] >= 2;
        DistinctOnce(xs, x);
      }
    }
  }

  /** `[f(x) for x in xs]`. */
  function Map<A, B>(xs: seq<A>, f: A -> B): (r: seq<B>)
    ensures |r| == |xs|
  {
    if xs == [] then [] else Map(xs[..|xs| - 1], f) + [f(xs[|xs| - 1])]
  }

  lemma {:induction false} MapAt<A, B>(xs: seq<A>, f: A -> B, k: nat)
    requires k < |xs|
    ensures Map(xs, f)[k] == f(xs[k])
  {
    var n := |xs| - 1;
    if k < n {
      MapAt(xs[..n], f, k);
    }
  }

  /** Mapping a function that fixes every element changes nothing. */
  lemma {:induction false} MapFixed<A>(xs: seq<A>, f: A -> A)
    requires forall i :: 0 <= i < |xs| ==> f(xs[i]) == xs[i]
    ensures Map(xs, f) == xs
  {
    if xs != [] {
      var init := xs[..|xs| - 1];
      MapFixed(init, f);
      InitLast(xs);
    }
  }

  /** The elements of `Map(xs, f)` are the images of the elements of `xs`. */
  lemma {:induction false} MapMembers<A, B>(xs: seq<A>, f: A -> B, y: B)
    ensures y in Map(xs, f) <==> exists x :: x in xs && f(x) == y
  {
    if xs != [] {
      var init := xs[..|xs| - 1];
      MapMembers(init, f, y);
      InitLast(xs);
    }
  }

  /** One more element adds its image at the end. */
  lemma MapSnoc<A, B>(xs: seq<A>, x: A, f: A -> B)
    ensures Map(xs + [x], f) == Map(xs, f) + [f(x)]
  {
    assert (xs + [x])[..|xs|] == xs;
  }

  lemma {:induction false} MapAppend<A, B>(xs: seq<A>, ys: seq<A>, f: A -> B)
    ensures Map(xs + ys, f) == Map(xs, f) + Map(ys, f)
    decreases |ys|
  {
    if ys != [] {
      var init := ys[..|ys| - 1];
      assert (xs + ys)[..|xs + ys| - 1] == xs + init;
      MapAppend(xs, init, f);
    } else {
      assert xs + ys == xs;
    }
  }

  /** `xs[:n]`. */
  function Take<A>(xs: seq<A>, n: nat): (r: seq<A>)
    ensures |r| == (if |xs| <= n then |xs| else n) && r == xs[..|r|]
  {
    if |xs| <= n then xs else xs[..n]
  }

  /** One more element is kept while fewer than `n` are there. */
  lemma TakeSnoc<A>(xs: seq<A>, x: A, n: nat)
    ensures Take(xs + [x], n) == if |xs| < n then xs + [x] else Take(xs, n)
  {
    if |xs| >= n {
      assert (xs + [x])[..n] == xs[..n];
    }
  }

  /** Once `n` elements are there, more elements change nothing. */
  lemma TakeOfExtension<A>(xs: seq<A>, ys: seq<A>, n: nat)
    requires |xs| >= n
    ensures Take(xs + ys, n) == Take(xs, n)
  {
    assert (xs + ys)[..n] == xs[..n];
  }

  /** The lists `f` gives for each element, concatenated in order (a loop of `extend` calls). */
  function FlatMap<A, B>(xs: seq<A>, f: A -> seq<B>): seq<B>
  {
    if xs == [] then [] else FlatMap(xs[..|xs| - 1], f) + f(xs[|xs| - 1])
  }

  /** An element of the concatenation comes from the list of some element. */
  lemma {:induction false} FlatMapMembers<A, B>(xs: seq<A>, f: A -> seq<B>, y: B)
    ensures y in FlatMap(xs, f) <==> exists k :: 0 <= k < |xs| && y in f(xs[k])
  {
    if xs != [] {
      var init := xs[..|xs| - 1];
      FlatMapMembers(init, f, y);
      if y in FlatMap(init, f) {
        var k :| 0 <= k < |init| && y in f(init[k]);
        assert xs[k] == init[k];
      }
      if exists k :: 0 <= k < |xs| && y in f(xs[k]) {
        var k :| 0 <= k < |xs| && y in f(xs[k]);
        if k < |init| { assert init[k] == xs[k]; }
      }
    }
  }

  /** Concatenating over `a + b` is concatenating over `a`, then over `b`. */
  lemma {:induction false} FlatMapAppend<A, B>(a: seq<A>, b: seq<A>, f: A -> seq<B>)
    ensures FlatMap(a + b, f) == FlatMap(a, f) + FlatMap(b, f)
    decreases |b|
  {
    if b != [] {
      var init := b[..|b| - 1];
      assert (a + b)[..|a + b| - 1] == a + init;
      FlatMapAppend(a, init, f);
    } else {
      assert a + b == a;
    }
  }

  lemma FlatMapSnoc<A, B>(xs: seq<A>, x: A, f: A -> seq<B>)
    ensures FlatMap(xs + [x], f) == FlatMap(xs, f) + f(x)
  {
    assert (xs + [x])[..|xs|] == xs;
  }

  /** The concatenation around element `k`: what comes before it, its own list, what comes after. */
  lemma FlatMapAround<A, B>(xs: seq<A>, k: nat, f: A -> seq<B>)
    requires k < |xs|
    ensures FlatMap(xs, f) == FlatMap(xs[..k], f) + f(xs[k]) + FlatMap(xs[k + 1..], f)
  {
    var front := xs[..k + 1];
    assert xs == front + xs[k + 1..];
    PrefixSnoc(xs, k);
    FlatMapAppend(front, xs[k + 1..], f);
    FlatMapSnoc(xs[..k], xs[k], f);
  }

  /** Each of three concatenated lists is found at its own offset. */
  lemma ThreeSlices<A>(a: seq<A>, b: seq<A>, c: seq<A>)
    ensures (a + b + c)[..|a|] == a
    ensures (a + b + c)[|a|..|a| + |b|] == b
    ensures (a + b + c)[|a| + |b|..] == c
  {
  }

  /** The lists `f` gives for each element and its position counted from 1, concatenated in order. */
  function FlatMapIndexed<A, B>(xs: seq<A>, f: (nat, A) -> seq<B>): seq<B>
    decreases |xs|
  {
    if xs == [] then [] else FlatMapIndexed(xs[..|xs| - 1], f) + f(|xs|, xs[|xs| - 1])
  }

  lemma FlatMapIndexedSnoc<A, B>(xs: seq<A>, x: A, f: (nat, A) -> seq<B>)
    ensures FlatMapIndexed(xs + [x], f) == FlatMapIndexed(xs, f) + f(|xs| + 1, x)
  {
    assert (xs + [x])[..|xs|] == xs;
  }

  /** What the element at `k` gives is part of the concatenation. */
  lemma {:induction false} FlatMapIndexedMember<A, B>(xs: seq<A>, f: (nat, A) -> seq<B>, k: nat, y: B)
    requires k < |xs| && y in f(k + 1, xs[k])
    ensures y in FlatMapIndexed(xs, f)
    decreases |xs|
  {
    var n := |xs| - 1;
    if k < n {
      assert xs[..n][k] == xs[k];
      FlatMapIndexedMember(xs[..n], f, k, y);
    }
  }

  /** Everything in the concatenation comes from some element, given with its position. */
  lemma {:induction false} FlatMapIndexedSource<A, B>(xs: seq<A>, f: (nat, A) -> seq<B>, y: B) returns (k: nat)
    requires y in FlatMapIndexed(xs, f)
    ensures k < |xs| && y in f(k + 1, xs[k])
    decreases |xs|
  {
    var n := |xs| - 1;
    if y in FlatMapIndexed(xs[..n], f) {
      k := FlatMapIndexedSource(xs[..n], f, y);
      assert xs[..n][k] == xs[k];
    } else {
      k := n;
    }
  }

  /** `[f(x) for x in xs if f(x) is not None]`. */
  function FilterMap<A, B>(xs: seq<A>, f: A -> Option<B>): (r: seq<B>)
    ensures |r| <= |xs|
  {
    if xs == [] then []
    else
      var init := xs[..|xs| - 1];
      var x := xs[|xs| - 1];
      FilterMap(init, f) + (match f(x) case None => [] case Some(y) => [y])
  }

  /** The results are exactly the values `f` produces on some element. */
  lemma {:induction false} FilterMapMembers<A(!new), B>(xs: seq<A>, f: A -> Option<B>, y: B)
    ensures y in FilterMap(xs, f) <==> exists x :: x in xs && f(x) == Some(y)
  {
    if xs != [] {
      var init := xs[..|xs| - 1];
      var x := xs[|xs| - 1];
      FilterMapMembers(init, f, y);
      assert xs == init + [x];
      if y in FilterMap(xs, f) && y !in FilterMap(init, f) {
        assert f(x) == Some(y);
      }
      if exists x' :: x' in xs && f(x') == Some(y) {
        var x' :| x' in xs && f(x') == Some(y);
        if x' != x { assert x' in init; }
      }
    }
  }

  /** The elements of `xs` in order of first appearance, each once (the key order of a dict filled from `xs`). */
  function Dedup<A(==,!new)>(xs: seq<A>): (r: seq<A>)
    ensures |r| <= |xs|
    ensures forall x :: x in r <==> x in xs
    ensures forall i, j :: 0 <= i < j < |r| ==> r[i] != r[j]
  {
    if xs == [] then []
    else
      var init := xs[..|xs| - 1];
      var x := xs[|xs| - 1];
      assert xs == init + [x];
      Dedup(init) + (if x in init then [] else [x])
  }

  /** One more element joins the end unless it was seen before. */
  lemma DedupSnoc<A(!new)>(xs: seq<A>, x: A)
    ensures Dedup(xs + [x]) == Dedup(xs) + (if x in xs then [] else [x])
  {
    assert (xs + [x])[..|xs|] == xs;
  }

  /** A list without repeats is its own `Dedup`. */
  lemma {:induction false} DedupOfDistinct<A(!new)>(xs: seq<A>)
    requires forall i, j :: 0 <= i < j < |xs| ==> xs[i] != xs[j]
    ensures Dedup(xs) == xs
  {
    if xs != [] {
      var init := xs[..|xs| - 1];
      InitLast(xs);
      DedupOfDistinct(init);
    }
  }

  /** The first error a check reports along `xs`, the loop that stops at the first failing element. */
  function FirstError<A, E>(xs: seq<A>, f: A -> Option<E>): (r: Option<E>)
    ensures r.None? <==> forall i :: 0 <= i < |xs| ==> f(xs[i]).None?
    ensures r.Some? ==> exists i :: 0 <= i < |xs| && f(xs[i]) == r && forall j :: 0 <= j < i ==> f(xs[j]).None?
  {
    if xs == [] then None
    else
      var init := xs[..|xs| - 1];
      var e := FirstError(init, f);
      assert forall i :: 0 <= i < |init| ==> init[i] == xs[i];
      if e.Some? then e else f(xs[|xs| - 1])
  }

  /** An error among the first `i` elements is the first error of the whole list. */
  lemma {:induction false} FirstErrorPrefix<A, E>(xs: seq<A>, f: A -> Option<E>, i: nat)
    requires i <= |xs| && FirstError(xs[..i], f).Some?
    ensures FirstError(xs, f) == FirstError(xs[..i], f)
    decreases |xs|
  {
    if i < |xs| {
      var init := xs[..|xs| - 1];
      assert init[..i] == xs[..i];
      FirstErrorPrefix(init, f, i);
    } else {
      assert xs[..i] == xs;
    }
  }

  /** `f` applied along `xs`, stopping at the first error: the loop that appends each result. */
  function Collect<A, B, E>(xs: seq<A>, f: A -> Result<B, E>): (r: Result<seq<B>, E>)
    ensures r.Ok? ==> |r.value| == |xs| && forall k :: 0 <= k < |xs| ==> f(xs[k]) == Ok(r.value[k])
    ensures r.Err? ==> exists k :: 0 <= k < |xs| && f(xs[k]) == Err(r.error) && forall j :: 0 <= j < k ==> f(xs[j]).Ok?
  {
    if xs == [] then Ok([])
    else
      var init := xs[..|xs| - 1];
      assert forall k :: 0 <= k < |init| ==> init[k] == xs[k];
      match Collect(init, f)
      case Err(e) => Err(e)
      case Ok(ys) =>
        match f(xs[|xs| - 1])
        case Err(e) => Err(e)
        case Ok(y) => Ok(ys + [y])
  }

  /** One more step of the loop: the next result is appended, or its error ends the loop. */
  lemma CollectStep<A, B, E>(xs: seq<A>, f: A -> Result<B, E>, i: nat, ys: seq<B>)
    requires i < |xs| && Collect(xs[..i], f) == Ok(ys)
    ensures f(xs[i]).Ok? ==> Collect(xs[..i + 1], f) == Ok(ys + [f(xs[i]).value])
    ensures f(xs[i]).Err? ==> Collect(xs[..i + 1], f) == Err(f(xs[i]).error)
  {
    assert xs[..i + 1][..i] == xs[..i];
  }

  /** The loop fails exactly when some element fails. */
  lemma CollectFails<A, B, E>(xs: seq<A>, f: A -> Result<B, E>)
    ensures Collect(xs, f).Err? <==> exists k :: 0 <= k < |xs| && f(xs[k]).Err?
  {
    if Collect(xs, f).Ok? {
      var ys := Collect(xs, f).value;
      assert forall k :: 0 <= k < |xs| ==> f(xs[k]) == Ok(ys[k]);
    }
  }

  /** Some element of a list satisfies `p` exactly when one of a permutation of it does. */
  lemma SomePermuted<A>(xs: seq<A>, ys: seq<A>, p: A -> bool)
    requires multiset(xs) == multiset(ys)
    ensures (exists k :: 0 <= k < |xs| && p(xs[k])) <==> exists k :: 0 <= k < |ys| && p(ys[k])
  {
    if exists k :: 0 <= k < |xs| && p(xs[k]) {
      var k :| 0 <= k < |xs| && p(xs[k]);
      assert xs[k] in multiset(ys);
      var j :| 0 <= j < |ys| && ys[j] == xs[k];
    }
    if exists k :: 0 <= k < |ys| && p(ys[k]) {
      var k :| 0 <= k < |ys| && p(ys[k]);
      assert ys[k] in multiset(xs);
      var j :| 0 <= j < |xs| && xs[j] == ys[k];
    }
  }

  /** An error among the first `i` elements is the error of the whole list. */
  lemma {:induction false} CollectErrSticks<A, B, E>(xs: seq<A>, f: A -> Result<B, E>, i: nat)
    requires i <= |xs| && Collect(xs[..i], f).Err?
    ensures Collect(xs, f) == Collect(xs[..i], f)
    decreases |xs|
  {
    if i < |xs| {
      var init := xs[..|xs| - 1];
      assert init[..i] == xs[..i];
      CollectErrSticks(init, f, i);
    } else {
      assert xs[..i] == xs;
    }
  }
}
