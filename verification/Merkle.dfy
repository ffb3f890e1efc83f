/** The Merkle root (crypto/crypto.go). The hash function is an argument, about which nothing is assumed but, where
    said so, the length of its results. */
module Merkle {
  import opened Types

  function Pow2(k: nat): (p: nat)
    ensures p > 0
  {
    if k == 0 then 1 else 2 * Pow2(k - 1)
  }

  // ----- The tree, from the root down -----

  /** The root of the tree of height k over up to 2^k leaves: the left half is filled first, and a subtree without a
      sibling is paired with itself. */
  function Tree(h: Bytes -> Bytes, leaves: seq<Bytes>, k: nat): Bytes
    requires 1 <= |leaves| <= Pow2(k)
  {
    if k == 0 then leaves[0]
    else if |leaves| > Pow2(k - 1) then
      h(Tree(h, leaves[..Pow2(k - 1)], k - 1) + Tree(h, leaves[Pow2(k - 1)..], k - 1))
    else
      h(Tree(h, leaves, k - 1) + Tree(h, leaves, k - 1))
  }

  /** The height of the lowest tree with room for n leaves. */
  function Height(n: nat): (k: nat)
    requires n >= 1
    ensures n <= Pow2(k) && (k > 0 ==> n > Pow2(k - 1))
  {
    if n == 1 then 0 else 1 + Height((n + 1) / 2)
  }

  function Root(h: Bytes -> Bytes, leaves: seq<Bytes>): Bytes
    requires leaves != []
  {
    Tree(h, leaves, Height(|leaves|))
  }

  // ----- The rows, from the leaves up -----

  function Parent(h: Bytes -> Bytes, row: seq<Bytes>, i: nat): Bytes
    requires 2 * i < |row|
  {
    h(row[2 * i] + row[if 2 * i + 1 < |row| then 2 * i + 1 else 2 * i])
  }

  /** One round of the loop: neighbours are hashed together, and an odd one at the end with itself. */
  function Parents(h: Bytes -> Bytes, row: seq<Bytes>): (next: seq<Bytes>)
    ensures |next| == (|row| + 1) / 2
    ensures forall i | 0 <= i < |next| :: next[i] == Parent(h, row, i)
  {
    seq((|row| + 1) / 2, i requires 0 <= i < (|row| + 1) / 2 => Parent(h, row, i))
  }

  lemma ParentsOfHalves(h: Bytes -> Bytes, row: seq<Bytes>, half: nat)
    requires 2 * half < |row|
    ensures Parents(h, row[..2 * half]) == Parents(h, row)[..half]
    ensures Parents(h, row[2 * half..]) == Parents(h, row)[half..]
  {
    var left, right := row[..2 * half], row[2 * half..];
    forall i | 0 <= i < half ensures Parents(h, left)[i] == Parents(h, row)[i] {
      assert Parent(h, left, i) == Parent(h, row, i);
    }
    forall i | 0 <= i < (|right| + 1) / 2 ensures Parents(h, right)[i] == Parents(h, row)[half + i] {
      assert right[2 * i] == row[2 * (half + i)];
      assert Parent(h, right, i) == Parent(h, row, half + i);
    }
  }

  /** Hashing a row together leaves the tree's root as it is. */
  lemma {:induction false} FoldKeepsTree(h: Bytes -> Bytes, row: seq<Bytes>, k: nat)
    requires 1 <= |row| <= Pow2(k + 1)
    ensures |Parents(h, row)| <= Pow2(k)
    ensures Tree(h, row, k + 1) == Tree(h, Parents(h, row), k)
  {
    var next := Parents(h, row);
    if k == 0 {
      assert Parent(h, row, 0) == next[0];
    } else if |row| > Pow2(k) {
      var half := Pow2(k - 1);
      ParentsOfHalves(h, row, half);
      FoldKeepsTree(h, row[..2 * half], k - 1);
      FoldKeepsTree(h, row[2 * half..], k - 1);
    } else {
      FoldKeepsTree(h, row, k - 1);
    }
  }

  lemma RootOfParents(h: Bytes -> Bytes, row: seq<Bytes>)
    requires |row| >= 2
    ensures Root(h, Parents(h, row)) == Root(h, row)
  {
    var k := Height((|row| + 1) / 2);
    assert Height(|row|) == k + 1;
    FoldKeepsTree(h, row, k);
  }

  /** The root, without tree or rows: one leaf is its own root, and a longer list has the root of the list of its
      neighbours' hashes, left before right, an odd one at the end taken twice. */
  lemma RootExactly(h: Bytes -> Bytes, row: seq<Bytes>, next: seq<Bytes>)
    requires |row| >= 2 && |next| == (|row| + 1) / 2
    requires forall i | 0 <= i < |next| ::
               next[i] == h(row[2 * i] + row[if 2 * i + 1 < |row| then 2 * i + 1 else 2 * i])
    ensures Root(h, row) == Root(h, next)
    ensures Root(h, [row[0]]) == row[0]
    ensures Root(h, [row[0], row[1]]) == h(row[0] + row[1])
  {
    assert Parents(h, row) == next by {
      assert forall i | 0 <= i < |next| :: Parents(h, row)[i] == Parent(h, row, i) == next[i];
    }
    RootOfParents(h, row);
    var two := [row[0], row[1]];
    RootOfParents(h, two);
    assert Parents(h, two) == [Parent(h, two, 0)];
  }

  /** The body of the loop. */
  method NextLevel(h: Bytes -> Bytes, hashes: seq<Bytes>) returns (next: seq<Bytes>)
    requires |hashes| >= 2
    ensures next == Parents(h, hashes)
  {
    var level := hashes;
    if |level| % 2 == 1 {
      level := level + [level[|level| - 1]];
    }
    var nextLevel := new Bytes[|level| / 2];
    var i := 0;
    while i < |level|
      invariant 0 <= i <= |level| && i % 2 == 0
      invariant forall j | 0 <= j < i / 2 :: nextLevel[j] == Parent(h, hashes, j)
    {
      nextLevel[i / 2] := h(level[i] + level[i + 1]);
      assert nextLevel[i / 2] == Parent(h, hashes, i / 2);
      i := i + 2;
    }
    next := nextLevel[..];
  }

  method MerkleRoot(h: Bytes -> Bytes, hashes: seq<Bytes>) returns (root: Option<Bytes>)
    ensures root == if hashes == [] then None else Some(Root(h, hashes))
  {
    if |hashes| == 0 {
      return None;
    }
    if |hashes| == 1 {
      return Some(hashes[0]);
    }
    var level := hashes;
    while |level| > 1
      invariant level != [] && Root(h, level) == Root(h, hashes)
      decreases |level|
    {
      RootOfParents(h, level);
      level := NextLevel(h, level);
    }
    return Some(level[0]);
  }

  // ----- Binding -----

  ghost predicate AllOfLength(xs: seq<Bytes>, size: nat) {
    forall i | 0 <= i < |xs| :: |xs[i]| == size
  }

  ghost predicate HashesTo(h: Bytes -> Bytes, size: nat) {
    forall x :: |h(x)| == size
  }

  ghost predicate Collide(h: Bytes -> Bytes, x: Bytes, y: Bytes) {
    x != y && h(x) == h(y)
  }

  lemma {:induction false} TreeLength(h: Bytes -> Bytes, leaves: seq<Bytes>, k: nat, size: nat)
    requires 1 <= |leaves| <= Pow2(k) && AllOfLength(leaves, size) && HashesTo(h, size)
    ensures |Tree(h, leaves, k)| == size
  {
  }

  lemma HalvesEqual(a: Bytes, b: Bytes, c: Bytes, d: Bytes)
    requires |a| == |c| && a + b == c + d
    ensures a == c && b == d
  {
    assert a == (a + b)[..|a|] && c == (c + d)[..|c|];
    assert b == (a + b)[|a|..] && d == (c + d)[|c|..];
  }

  /** Where two trees with the same root first differ on the way down, two different inputs have the same hash. */
  ghost function Collision(h: Bytes -> Bytes, a: seq<Bytes>, b: seq<Bytes>, k: nat): (Bytes, Bytes)
    requires 1 <= |a| <= Pow2(k) && |b| == |a|
  {
    if k == 0 then ([], [])
    else if |a| > Pow2(k - 1) then
      var half := Pow2(k - 1);
      var x := Tree(h, a[..half], k - 1) + Tree(h, a[half..], k - 1);
      var y := Tree(h, b[..half], k - 1) + Tree(h, b[half..], k - 1);
      if x != y then (x, y)
      else if a[..half] != b[..half] then Collision(h, a[..half], b[..half], k - 1)
      else Collision(h, a[half..], b[half..], k - 1)
    else
      var x := Tree(h, a, k - 1) + Tree(h, a, k - 1);
      var y := Tree(h, b, k - 1) + Tree(h, b, k - 1);
      if x != y then (x, y) else Collision(h, a, b, k - 1)
  }

  lemma {:induction false} TreeBinding(h: Bytes -> Bytes, a: seq<Bytes>, b: seq<Bytes>, k: nat, size: nat)
    requires 1 <= |a| <= Pow2(k) && |b| == |a|
    requires AllOfLength(a, size) && AllOfLength(b, size) && HashesTo(h, size)
    requires Tree(h, a, k) == Tree(h, b, k)
    ensures var (x, y) := Collision(h, a, b, k); a == b || Collide(h, x, y)
    decreases k, 1
  {
    if k == 0 {
      assert a == [a[0]] && b == [b[0]];
    } else if |a| > Pow2(k - 1) {
      BindingWithSibling(h, a, b, k, size);
    } else {
      TreeLength(h, a, k - 1, size);
      TreeLength(h, b, k - 1, size);
      var t, u := Tree(h, a, k - 1), Tree(h, b, k - 1);
      if t + t == u + u {
        HalvesEqual(t, t, u, u);
        TreeBinding(h, a, b, k - 1, size);
      }
    }
  }

  lemma SubtreesEqual(h: Bytes -> Bytes, a: seq<Bytes>, b: seq<Bytes>, k: nat, size: nat)
    requires 0 < k && Pow2(k - 1) < |a| <= Pow2(k) && |b| == |a|
    requires AllOfLength(a, size) && AllOfLength(b, size) && HashesTo(h, size)
    requires var half := Pow2(k - 1);
             Tree(h, a[..half], k - 1) + Tree(h, a[half..], k - 1) ==
             Tree(h, b[..half], k - 1) + Tree(h, b[half..], k - 1)
    ensures var half := Pow2(k - 1);
            && Tree(h, a[..half], k - 1) == Tree(h, b[..half], k - 1)
            && Tree(h, a[half..], k - 1) == Tree(h, b[half..], k - 1)
  {
    var half := Pow2(k - 1);
    TreeLength(h, a[..half], k - 1, size);
    TreeLength(h, b[..half], k - 1, size);
    HalvesEqual(Tree(h, a[..half], k - 1), Tree(h, a[half..], k - 1),
                Tree(h, b[..half], k - 1), Tree(h, b[half..], k - 1));
  }

  lemma {:induction false} BindingWithSibling(h: Bytes -> Bytes, a: seq<Bytes>, b: seq<Bytes>, k: nat, size: nat)
    requires 0 < k && Pow2(k - 1) < |a| <= Pow2(k) && |b| == |a|
    requires AllOfLength(a, size) && AllOfLength(b, size) && HashesTo(h, size)
    requires Tree(h, a, k) == Tree(h, b, k)
    ensures var (x, y) := Collision(h, a, b, k); a == b || Collide(h, x, y)
    decreases k, 0
  {
    var half := Pow2(k - 1);
    var x := Tree(h, a[..half], k - 1) + Tree(h, a[half..], k - 1);
    var y := Tree(h, b[..half], k - 1) + Tree(h, b[half..], k - 1);
    if x == y {
      SubtreesEqual(h, a, b, k, size);
      if a[..half] != b[..half] {
        TreeBinding(h, a[..half], b[..half], k - 1, size);
      } else {
        assert a == a[..half] + a[half..] && b == b[..half] + b[half..];
        TreeBinding(h, a[half..], b[half..], k - 1, size);
      }
    }
  }

  const HASH_SIZE: nat := 32

  /** Two lists of equal length with the same root are equal, or they hold a collision that can be read off. */
  lemma {:induction false} RootBinding(h: Bytes -> Bytes, a: seq<Bytes>, b: seq<Bytes>)
    requires |a| == |b| >= 1
    requires AllOfLength(a, HASH_SIZE) && AllOfLength(b, HASH_SIZE) && HashesTo(h, HASH_SIZE)
    requires Root(h, a) == Root(h, b)
    ensures var (x, y) := Collision(h, a, b, Height(|a|)); a == b || Collide(h, x, y)
  {
    TreeBinding(h, a, b, Height(|a|), HASH_SIZE);
  }

  /** Lists of different lengths can share a root without a collision: an odd list and the same list with its last
      entry repeated. RootOfParents gives another family: any list and its row of parents. */
  lemma RepeatedLastKeepsRoot(h: Bytes -> Bytes, xs: seq<Bytes>)
    requires |xs| % 2 == 1 && |xs| > 1
    ensures Root(h, xs + [xs[|xs| - 1]]) == Root(h, xs)
  {
    var longer := xs + [xs[|xs| - 1]];
    assert Parents(h, longer) == Parents(h, xs);
    RootOfParents(h, xs);
    RootOfParents(h, longer);
  }
}
