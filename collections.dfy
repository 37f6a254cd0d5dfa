/**
 * The two collection operations of the Swift standard library that the
 * progress tracker relies on: `reduce(0, +)` over a sequence of numbers and
 * `index(of:)`, which finds the first position of an element.
 */
module Collections {
  import opened Wrappers

  /** The sum of `xs`, folded from the left starting at 0, as `reduce(0, +)` does. */
  function Sum(xs: seq<real>): (r: real)
  {
    if xs == [] then 0.0 else Sum(xs[..|xs| - 1]) + xs[|xs| - 1]
  }

  /** Summing a concatenation is summing the parts. */
  lemma {:induction false} SumAppend(a: seq<real>, b: seq<real>)
    ensures Sum(a + b) == Sum(a) + Sum(b)
  {
    if b == [] {
      assert a + b == a;
    } else {
      var b' := b[..|b| - 1];
      assert (a + b)[..|a + b| - 1] == a + b';
      SumAppend(a, b');
    }
  }

  /** A sequence splits around any of its positions. */
  lemma SumSplitAt(xs: seq<real>, k: int)
    requires 0 <= k < |xs|
    ensures Sum(xs) == Sum(xs[..k]) + xs[k] + Sum(xs[k + 1..])
  {
    assert xs == xs[..k + 1] + xs[k + 1..];
    SumAppend(xs[..k + 1], xs[k + 1..]);
    SumPrefixStep(xs, k);
  }

  /** Extending a prefix by one element adds that element to its sum. */
  lemma SumPrefixStep(xs: seq<real>, k: int)
    requires 0 <= k < |xs|
    ensures Sum(xs[..k + 1]) == Sum(xs[..k]) + xs[k]
  {
    assert xs[..k + 1][..k] == xs[..k];
  }

  /** Dropping the first element of a suffix subtracts that element from its sum. */
  lemma SumSuffixStep(xs: seq<real>, k: int)
    requires 0 <= k < |xs|
    ensures Sum(xs[k..]) == xs[k] + Sum(xs[k + 1..])
  {
    assert xs[k..] == [xs[k]] + xs[k + 1..];
    SumAppend([xs[k]], xs[k + 1..]);
    assert [xs[k]][..0] == [];
  }

  predicate NonNegative(xs: seq<real>)
  {
    forall i :: 0 <= i < |xs| ==> 0.0 <= xs[i]
  }

  lemma {:induction false} SumNonNegative(xs: seq<real>)
    requires NonNegative(xs)
    ensures 0.0 <= Sum(xs)
  {
    if xs != [] {
      SumNonNegative(xs[..|xs| - 1]);
    }
  }

  /** Over non-negative terms, a prefix together with the next term never exceeds the total. */
  lemma SumPrefixBound(xs: seq<real>, k: int)
    requires NonNegative(xs) && 0 <= k < |xs|
    ensures 0.0 <= Sum(xs[..k])
    ensures Sum(xs[..k]) + xs[k] <= Sum(xs)
  {
    SumSplitAt(xs, k);
    SumNonNegative(xs[..k]);
    SumNonNegative(xs[k + 1..]);
  }

  /** Over non-negative terms, a suffix together with the term before it never exceeds the total. */
  lemma SumSuffixBound(xs: seq<real>, k: int)
    requires NonNegative(xs) && 0 <= k < |xs|
    ensures 0.0 <= Sum(xs[k + 1..])
    ensures xs[k] + Sum(xs[k + 1..]) <= Sum(xs)
  {
    SumSplitAt(xs, k);
    SumNonNegative(xs[..k]);
    SumNonNegative(xs[k + 1..]);
  }

  /** `i` is the first position at which `x` occurs in `xs`. */
  predicate IsFirstIndex<T(==)>(xs: seq<T>, x: T, i: int)
  {
    0 <= i < |xs| && xs[i] == x && x !in xs[..i]
  }

  /** A value has at most one first index: once `i` is one, every first index is `i`. */
  lemma FirstIndexUniqueFor<T>(xs: seq<T>, x: T, i: int)
    requires IsFirstIndex(xs, x, i)
    ensures forall j :: IsFirstIndex(xs, x, j) ==> j == i
  {
  }

  /** Swift's `index(of:)`: the first position of `x` in `xs`, or nothing when `x` does not occur. */
  function IndexOf<T(==)>(xs: seq<T>, x: T): (r: Option<nat>)
    ensures r.None? <==> x !in xs
    ensures r.Some? ==> IsFirstIndex(xs, x, r.value)
  {
    if xs == [] then None
    else if xs[0] == x then Some(0)
    else match IndexOf(xs[1..], x)
      case None => None
      case Some(i) =>
        assert xs[..i + 1] == [xs[0]] + xs[1..][..i];
        Some(i + 1)
  }

  /** Cutting a three-part sequence just before position `j` of its middle part. */
  lemma SliceBeforeMiddle<T>(a: seq<T>, b: seq<T>, c: seq<T>, j: int)
    requires 0 <= j < |b|
    ensures (a + b + c)[..|a| + j] == a + b[..j]
  {
  }

  /** Cutting a three-part sequence just after position `j` of its middle part. */
  lemma SliceAfterMiddle<T>(a: seq<T>, b: seq<T>, c: seq<T>, j: int)
    requires 0 <= j < |b|
    ensures (a + b + c)[|a| + j + 1..] == b[j + 1..] + c
  {
  }
}
