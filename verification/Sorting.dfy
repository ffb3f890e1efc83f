/** Go's sort.Slice: some ordering of the same elements. It is not stable, so nothing is said about equal keys. */
module Sorting {

  ghost predicate SortedBy<T>(xs: seq<T>, key: T -> int) {
    forall i, j | 0 <= i < j < |xs| :: key(xs[i]) <= key(xs[j])
  }

  method SortSlice<T>(xs: seq<T>, key: T -> int) returns (r: seq<T>)
    ensures SortedBy(r, key) && multiset(r) == multiset(xs)
  {
    r := [];
    for i := 0 to |xs|
      invariant SortedBy(r, key) && multiset(r) == multiset(xs[..i])
    {
      r := Insert(r, xs[i], key);
      assert xs[..i + 1] == xs[..i] + [xs[i]];
    }
    assert xs[..|xs|] == xs;
  }

  lemma AppendSorted<T>(xs: seq<T>, x: T, key: T -> int)
    requires SortedBy(xs, key) && forall y <- xs :: key(y) <= key(x)
    ensures SortedBy(xs + [x], key)
  {
  }

  lemma LastIsGreatest<T>(xs: seq<T>, key: T -> int)
    requires xs != [] && SortedBy(xs, key)
    ensures forall y <- xs :: key(y) <= key(xs[|xs| - 1])
  {
  }

  /** Insertion from the right. */
  function Insert<T>(xs: seq<T>, x: T, key: T -> int): (r: seq<T>)
    requires SortedBy(xs, key)
    ensures SortedBy(r, key) && multiset(r) == multiset(xs) + multiset{x}
    ensures forall y <- r :: y == x || y in xs
  {
    if xs == [] then [x]
    else
      LastIsGreatest(xs, key);
      var init, last := xs[..|xs| - 1], xs[|xs| - 1];
      assert xs == init + [last];
      if key(last) <= key(x) then AppendSorted(xs, x, key); xs + [x]
      else
        var r := Insert(init, x, key);
        AppendSorted(r, last, key);
        r + [last]
  }

  /** Lists with the same elements have the same members and length, and repeat an element or not together. */
  lemma SameElements<T>(a: seq<T>, b: seq<T>)
    requires multiset(a) == multiset(b)
    ensures |a| == |b|
    ensures forall x :: x in a <==> x in b
    ensures (forall i, j | 0 <= i < j < |a| :: a[i] != a[j]) ==> forall i, j | 0 <= i < j < |b| :: b[i] != b[j]
  {
    assert |multiset(a)| == |a| && |multiset(b)| == |b|;
    assert forall x :: x in a <==> x in multiset(a);
    assert forall x :: x in b <==> x in multiset(b);
    if forall i, j | 0 <= i < j < |a| :: a[i] != a[j] {
      forall i, j | 0 <= i < j < |b| ensures b[i] != b[j] {
        if b[i] == b[j] {
          RepeatCounts(b, i, j);
          OnceCounts(a, b[i]);
        }
      }
    }
  }

  lemma RepeatCounts<T>(xs: seq<T>, i: nat, j: nat)
    requires i < j < |xs| && xs[i] == xs[j]
    ensures multiset(xs)[xs[i]] >= 2
  {
    assert xs == xs[..i] + [xs[i]] + xs[i + 1..j] + [xs[j]] + xs[j + 1..];
  }

  lemma {:induction false} OnceCounts<T>(xs: seq<T>, x: T)
    requires forall i, j | 0 <= i < j < |xs| :: xs[i] != xs[j]
    ensures multiset(xs)[x] <= 1
  {
    if xs == [] {
    } else {
      var init, last := xs[..|xs| - 1], xs[|xs| - 1];
      OnceCounts(init, x);
      assert xs == init + [last];
      if last == x {
        assert x !in init;
        assert x !in multiset(init);
      }
    }
  }
}
