/** Counting and concatenation over histories, which all grow at their end. */
module Sequences {

  /** The range of the source's 32-bit `unsigned int`. */
  const UINT_RANGE: nat := 0x1_0000_0000

  /** The number of elements of `xs` that satisfy `p`. */
  function Tally<T>(xs: seq<T>, p: T -> bool): nat {
    if xs == [] then 0
    else Tally(xs[..|xs| - 1], p) + if p(xs[|xs| - 1]) then 1 else 0
  }

  lemma TallySnoc<T>(xs: seq<T>, x: T, p: T -> bool)
    ensures Tally(xs + [x], p) == Tally(xs, p) + if p(x) then 1 else 0
  {
    assert (xs + [x])[..|xs|] == xs;
  }

  lemma {:induction false} TallyAppend<T>(xs: seq<T>, ys: seq<T>, p: T -> bool)
    ensures Tally(xs + ys, p) == Tally(xs, p) + Tally(ys, p)
  {
    if ys == [] {
      assert xs + ys == xs;
    } else {
      var init := ys[..|ys| - 1];
      TallyAppend(xs, init, p);
      assert (xs + ys)[..|xs + ys| - 1] == xs + init;
    }
  }

  lemma {:induction false} TallyPositive<T>(xs: seq<T>, p: T -> bool)
    ensures Tally(xs, p) > 0 <==> exists i :: 0 <= i < |xs| && p(xs[i])
  {
    if xs == [] {
    } else {
      var init := xs[..|xs| - 1];
      TallyPositive(init, p);
      if Tally(init, p) > 0 {
        var i :| 0 <= i < |init| && p(init[i]);
        assert p(xs[i]);
      } else if i :| 0 <= i < |xs| && p(xs[i]) {
        assert i < |init| ==> p(init[i]);
      }
    }
  }

  lemma Associative<T>(xs: seq<T>, ys: seq<T>, zs: seq<T>)
    ensures (xs + ys) + zs == xs + (ys + zs)
  {}

  lemma InitLast<T>(xs: seq<T>)
    requires xs != []
    ensures xs == xs[..|xs| - 1] + [xs[|xs| - 1]]
  {}

  /** `xs` without the element at index `k`. */
  function Without<T>(xs: seq<T>, k: nat): seq<T>
    requires k < |xs|
  {
    xs[..k] + xs[k + 1..]
  }

  lemma MultisetWithout<T>(xs: seq<T>, k: nat)
    requires k < |xs|
    ensures multiset(Without(xs, k)) == multiset(xs) - multiset{xs[k]}
  {
    assert xs == xs[..k] + [xs[k]] + xs[k + 1..];
  }

  lemma TallyWithout<T>(xs: seq<T>, k: nat, p: T -> bool)
    requires k < |xs|
    ensures Tally(xs, p) == Tally(Without(xs, k), p) + if p(xs[k]) then 1 else 0
  {
    var left, right := xs[..k], xs[k + 1..];
    assert xs == left + xs[k..];
    assert xs[k..] == [xs[k]] + right;
    TallyAppend(left, [xs[k]] + right, p);
    TallyAppend([xs[k]], right, p);
    TallyAppend(left, right, p);
  }

  /** Counting does not depend on the order of arrival. */
  lemma {:induction false} TallyPermutation<T>(xs: seq<T>, ys: seq<T>, p: T -> bool)
    requires multiset(xs) == multiset(ys)
    ensures Tally(xs, p) == Tally(ys, p)
    decreases |xs|
  {
    assert |multiset(xs)| == |xs| && |multiset(ys)| == |ys|;
    if xs == [] {
    } else {
      var x := xs[|xs| - 1];
      assert x in multiset(ys);
      var k :| 0 <= k < |ys| && ys[k] == x;
      MultisetWithout(xs, |xs| - 1);
      MultisetWithout(ys, k);
      TallyWithout(xs, |xs| - 1, p);
      TallyWithout(ys, k, p);
      TallyPermutation(Without(xs, |xs| - 1), Without(ys, k), p);
    }
  }

  /** The numbers of `n` boards: board 0 is the local one, the others are the satellites. */
  function Below(n: nat): (s: set<nat>)
    ensures |s| == n
    ensures forall b: nat :: b in s <==> b < n
  {
    if n == 0 then {} else Below(n - 1) + {n - 1}
  }

  lemma SubsetCardinality<T>(s: set<T>, t: set<T>)
    requires s <= t
    ensures |s| <= |t|
    ensures |s| == |t| <==> s == t
  {
    var rest := t - s;
    assert t == s + rest;
    assert |t| == |s| + |rest|;
  }

  /** A set of board numbers is complete exactly when it has as many members as there are boards. */
  lemma Pigeonhole(n: nat, boards: set<nat>)
    requires forall b :: b in boards ==> b < n
    ensures |boards| <= n
    ensures |boards| == n <==> forall b: nat :: b < n ==> b in boards
  {
    assert boards <= Below(n);
    SubsetCardinality(boards, Below(n));
  }

  function Flatten<T>(xss: seq<seq<T>>): seq<T> {
    if xss == [] then [] else Flatten(xss[..|xss| - 1]) + xss[|xss| - 1]
  }

  lemma FlattenSnoc<T>(xss: seq<seq<T>>, xs: seq<T>)
    ensures Flatten(xss + [xs]) == Flatten(xss) + xs
  {
    assert (xss + [xs])[..|xss|] == xss;
  }

  /** What a series of `n` results has in all. */
  function Collect<T>(results: nat -> seq<T>, n: nat): seq<T> {
    if n == 0 then [] else Collect(results, n - 1) + results(n - 1)
  }

  lemma {:induction false} CollectOneEach<T>(results: nat -> seq<T>, n: nat)
    requires forall j: nat :: j < n ==> |results(j)| == 1
    ensures |Collect(results, n)| == n
    ensures forall j: nat :: j < n ==> Collect(results, n)[j] == results(j)[0]
  {
    if n == 0 {
    } else {
      CollectOneEach(results, n - 1);
    }
  }
}
