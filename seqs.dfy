/** Generic sequence operations the dashboard's derived views are built from:
    row filtering (a boolean mask over a table), first-appearance de-duplication
    (`unique()` on a column) and the subsequence relation that a filtered table
    keeps with the table it came from. */
module Seqs {

  /** No element occurs twice. */
  predicate NoDup<T(==)>(xs: seq<T>) {
    forall i, j :: 0 <= i < j < |xs| ==> xs[i] != xs[j]
  }

  /** `a` is obtained from `b` by deleting elements, keeping the rest in order:
      either the first elements match and the tails are related, or the first
      element of `b` is skipped. */
  predicate IsSubseq<T(==)>(a: seq<T>, b: seq<T>)
    decreases |b|
  {
    a == [] || (b != [] && ((a[0] == b[0] && IsSubseq(a[1..], b[1..])) || IsSubseq(a, b[1..])))
  }

  /** The rows of `xs` for which the mask `p` holds, in their original order. */
  function Filter<T(==,!new)>(xs: seq<T>, p: T -> bool): (r: seq<T>)
    ensures |r| <= |xs|
    ensures forall x :: x in r <==> x in xs && p(x)
    ensures forall x :: multiset(r)[x] == if p(x) then multiset(xs)[x] else 0
  {
    if xs == [] then []
    else
      assert xs == [xs[0]] + xs[1..];
      (if p(xs[0]) then [xs[0]] else []) + Filter(xs[1..], p)
  }

  /** A filtered sequence keeps the order of the original. */
  lemma {:induction false} FilterIsSubseq<T(!new)>(xs: seq<T>, p: T -> bool)
    ensures IsSubseq(Filter(xs, p), xs)
  {
    if xs != [] {
      FilterIsSubseq(xs[1..], p);
      var rest := Filter(xs[1..], p);
      if p(xs[0]) {
        assert Filter(xs, p) == [xs[0]] + rest;
        assert ([xs[0]] + rest)[1..] == rest;
      } else {
        assert Filter(xs, p) == rest;
      }
    }
  }

  /** Every sequence is a subsequence of itself. */
  lemma {:induction false} IsSubseqReflexive<T>(a: seq<T>)
    ensures IsSubseq(a, a)
  {
    if a != [] {
      IsSubseqReflexive(a[1..]);
    }
  }

  /** Dropping elements twice is dropping elements once. */
  lemma {:induction false} IsSubseqTransitive<T>(a: seq<T>, b: seq<T>, c: seq<T>)
    requires IsSubseq(a, b) && IsSubseq(b, c)
    ensures IsSubseq(a, c)
    decreases |c|
  {
    if a != [] {
      assert b != [] && c != [];
      if b[0] == c[0] && IsSubseq(b[1..], c[1..]) {
        if a[0] == b[0] && IsSubseq(a[1..], b[1..]) {
          IsSubseqTransitive(a[1..], b[1..], c[1..]);
        } else {
          IsSubseqTransitive(a, b[1..], c[1..]);
        }
      } else {
        IsSubseqTransitive(a, b, c[1..]);
      }
    }
  }

  /** Position of the first occurrence of `x` in `xs`. */
  function IndexOf<T(==)>(xs: seq<T>, x: T): (i: nat)
    requires x in xs
    ensures i < |xs| && xs[i] == x
    ensures forall j :: 0 <= j < i ==> xs[j] != x
  {
    if xs[0] == x then 0 else 1 + IndexOf(xs[1..], x)
  }

  /** The distinct elements of `xs` in order of first appearance. */
  function Unique<T(==,!new)>(xs: seq<T>): (u: seq<T>)
    ensures NoDup(u)
    ensures forall x :: x in u <==> x in xs
  {
    if xs == [] then []
    else
      var init, last := xs[..|xs| - 1], xs[|xs| - 1];
      assert xs == init + [last];
      var u := Unique(init);
      if last in u then u else u + [last]
  }

  /** Extending a sequence does not move the first occurrence of an element
      that was already present. */
  lemma IndexOfExtend<T>(xs: seq<T>, y: T, x: T)
    requires x in xs
    ensures x in xs + [y] && IndexOf(xs + [y], x) == IndexOf(xs, x)
  {
    var i := IndexOf(xs, x);
    var k := IndexOf(xs + [y], x);
    assert (xs + [y])[i] == x;
  }

  /** `Unique` lists the elements in the order in which they first occur. */
  lemma {:induction false} UniqueFirstAppearanceOrder<T(!new)>(xs: seq<T>)
    ensures forall i, j :: 0 <= i < j < |Unique(xs)| ==>
              IndexOf(xs, Unique(xs)[i]) < IndexOf(xs, Unique(xs)[j])
  {
    if xs != [] {
      var init, last := xs[..|xs| - 1], xs[|xs| - 1];
      assert xs == init + [last];
      var u := Unique(init);
      UniqueFirstAppearanceOrder(init);
      forall x | x in init
        ensures IndexOf(xs, x) == IndexOf(init, x) < |init|
      {
        IndexOfExtend(init, last, x);
      }
      if last !in u {
        var v := Unique(xs);
        assert v == u + [last];
        AppendedLastOrder(xs, init, last, u, v);
      }
    }
  }

  /** The step of `UniqueFirstAppearanceOrder` where the last element is new. */
  lemma AppendedLastOrder<T>(xs: seq<T>, init: seq<T>, last: T, u: seq<T>, v: seq<T>)
    requires xs == init + [last] && v == u + [last] && last !in init
    requires forall x :: x in u ==> x in init
    requires forall x :: x in init ==> IndexOf(xs, x) == IndexOf(init, x) < |init|
    requires forall i, j :: 0 <= i < j < |u| ==> IndexOf(init, u[i]) < IndexOf(init, u[j])
    ensures forall i, j :: 0 <= i < j < |v| ==> IndexOf(xs, v[i]) < IndexOf(xs, v[j])
  {
    assert xs[|init|] == last;
    assert IndexOf(xs, last) == |init| by {
      forall j | 0 <= j < |init| ensures xs[j] != last {
        assert xs[j] == init[j];
      }
    }
    forall i, j | 0 <= i < j < |v|
      ensures IndexOf(xs, v[i]) < IndexOf(xs, v[j])
    {
      assert v[i] == u[i] && u[i] in u;
      if j < |u| {
        assert v[j] == u[j] && u[j] in u;
      } else {
        assert v[j] == last;
      }
    }
  }
}
