/** Quorum arithmetic (types/types.go) and what it says about sets of validators. */
module Quorum {

  /** Go's (n-1)/3, which truncates toward zero and so gives 0 for n = 0. */
  function FaultyTolerance(n: nat): nat {
    if n == 0 then 0 else (n - 1) / 3
  }

  function QuorumSize(n: nat): nat {
    2 * FaultyTolerance(n) + 1
  }

  /** A quorum can always be filled by the validators that are not faulty. */
  lemma QuorumIsAvailable(n: nat)
    requires n >= 1
    ensures QuorumSize(n) <= n - FaultyTolerance(n)
  {
  }

  /** f is the largest number of faults that fewer than a third of the validators make up, and a quorum is 2f + 1. */
  lemma FaultsExactly(n: nat)
    requires n >= 1
    ensures var f := FaultyTolerance(n); 3 * f + 1 <= n < 3 * f + 4 && QuorumSize(n) == 2 * f + 1
    ensures FaultyTolerance(0) == 0 && QuorumSize(0) == 1
  {
  }

  /** The remainder i < n places further on. */
  lemma CountingOn(v: nat, n: nat, i: nat)
    requires i < n
    ensures (v + i) % n == if v % n + i < n then v % n + i else v % n + i - n
  {
    var q, w := v / n, v % n;
    if w + i < n {
      assert v + i == n * q + (w + i);
      Remainder(n, q, w + i);
    } else {
      assert v + i == n * (q + 1) + (w + i - n);
      Remainder(n, q + 1, w + i - n);
    }
  }

  lemma Remainder(n: nat, q: nat, r: nat)
    requires r < n
    ensures (n * q + r) % n == r
  {
    var x := n * q + r;
    var k := x / n;
    assert x == n * k + x % n;
    assert k < q ==> n * k <= n * (q - 1);
    assert k > q ==> n * k >= n * (q + 1);
  }

  ghost predicate IsQuorum<T>(a: set<T>, validators: set<T>) {
    a <= validators && |a| == QuorumSize(|validators|)
  }

  /** Any two quorums share at least f + 1 members. */
  ghost predicate QuorumsMeetInHonestNode<T(!new)>(validators: set<T>) {
    forall a: set<T>, b: set<T> | IsQuorum(a, validators) && IsQuorum(b, validators) ::
      |a * b| >= FaultyTolerance(|validators|) + 1
  }

  lemma IntersectionSize<T>(a: set<T>, b: set<T>, validators: set<T>)
    requires a <= validators && b <= validators
    ensures |a * b| >= |a| + |b| - |validators|
  {
    SubsetSize(a + b, validators);
  }

  lemma {:induction false} SubsetSize<T>(a: set<T>, b: set<T>)
    requires a <= b
    ensures |a| <= |b|
  {
    if a == {} {
    } else {
      var x :| x in a;
      SubsetSize(a - {x}, b - {x});
    }
  }

  lemma SameSizeSubset<T>(a: set<T>, b: set<T>)
    requires a <= b && |a| == |b|
    ensures a == b
  {
    if b - a != {} {
      var x :| x in b - a;
      SubsetSize(a, b - {x});
    } else {
      assert b == a + (b - a);
    }
  }

  ghost function Choose<T>(s: set<T>, k: nat): (r: set<T>)
    requires k <= |s|
    ensures r <= s && |r| == k
  {
    if k == 0 then {}
    else
      var x :| x in s;
      Choose(s - {x}, k - 1) + {x}
  }

  /** Two subsets of the wanted sizes that overlap no more than they must. */
  lemma LeastOverlap<T>(validators: set<T>, k: nat) returns (a: set<T>, b: set<T>)
    requires k <= |validators|
    ensures a <= validators && b <= validators && |a| == k && |b| == k
    ensures |a * b| == if 2 * k <= |validators| then 0 else 2 * k - |validators|
  {
    a := Choose(validators, k);
    var rest := validators - a;
    if k <= |rest| {
      b := Choose(rest, k);
      assert a * b == {};
    } else {
      var shared := Choose(a, k - |rest|);
      b := rest + shared;
      assert a * b == shared;
    }
  }

  lemma NoOverlap<T>(a: set<T>, b: set<T>)
    requires |a * b| == 0
    ensures forall x <- a :: x !in b
  {
    assert a * b == {};
    assert forall x <- a :: x in a * b <==> x in b;
  }

  /** The intersection property the protocol needs holds exactly for n = 3f + 1. */
  lemma QuorumIntersectionExactly<T(!new)>(validators: set<T>)
    requires |validators| >= 1
    ensures QuorumsMeetInHonestNode(validators) <==> |validators| % 3 == 1
  {
    var n, q := |validators|, QuorumSize(|validators|);
    if n % 3 == 1 {
      forall a: set<T>, b: set<T> | IsQuorum(a, validators) && IsQuorum(b, validators)
        ensures |a * b| >= FaultyTolerance(n) + 1
      {
        IntersectionSize(a, b, validators);
      }
    } else {
      var a, b := LeastOverlap(validators, q);
      assert IsQuorum(a, validators) && IsQuorum(b, validators);
    }
  }

  /** Two sets that reach a quorum meet, whatever the faults, exactly when 2q > n. */
  lemma QuorumsMeetExactly<T(!new)>(validators: set<T>)
    requires |validators| >= 1
    ensures (forall a: set<T>, b: set<T> | IsQuorum(a, validators) && IsQuorum(b, validators) :: a * b != {})
            <==> 2 * QuorumSize(|validators|) > |validators|
  {
    if 2 * QuorumSize(|validators|) > |validators| {
      forall a: set<T>, b: set<T> | IsQuorum(a, validators) && IsQuorum(b, validators)
        ensures a * b != {}
      {
        IntersectionSize(a, b, validators);
      }
    } else {
      var a, b := LeastOverlap(validators, QuorumSize(|validators|));
      assert IsQuorum(a, validators) && IsQuorum(b, validators);
    }
  }
}
