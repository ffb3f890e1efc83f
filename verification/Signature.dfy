/** The fixed-width signature encoding (crypto/crypto.go). big.Int values are naturals here; ECDSA itself is not
    part of this model. */
module Signatures {
  import opened Types

  function Pow256(k: nat): (p: nat)
    ensures p > 0
  {
    if k == 0 then 1 else 256 * Pow256(k - 1)
  }

  // ----- big.Int -----

  /** big.Int.SetBytes: the number whose big-endian digits these are. */
  function SetBytes(data: Bytes): nat {
    if data == [] then 0 else 256 * SetBytes(data[..|data| - 1]) + data[|data| - 1]
  }

  /** big.Int.Bytes: the big-endian digits, without leading zeros; none for 0. */
  function Digits(n: nat): (d: Bytes)
    ensures SetBytes(d) == n
    ensures d != [] ==> d[0] != 0
  {
    if n == 0 then [] else
      var d := Digits(n / 256);
      assert (d + [n % 256])[..|d|] == d;
      d + [n % 256]
  }

  /** Most significant byte first. */
  lemma {:induction false} BigEndian(a: Bytes, b: Bytes, x: Byte)
    ensures SetBytes([]) == 0 && SetBytes([x]) == x && Pow256(0) == 1
    ensures Pow256(|b| + 1) == 256 * Pow256(|b|)
    ensures SetBytes(a + b) == SetBytes(a) * Pow256(|b|) + SetBytes(b)
  {
    assert [x][..0] == [];
    if b == [] {
      assert a + b == a;
    } else {
      var init := b[..|b| - 1];
      BigEndian(a, init, x);
      assert (a + b)[..|a + b| - 1] == a + init;
      Distribute(SetBytes(a), Pow256(|init|), SetBytes(init));
    }
  }

  lemma Distribute(a: nat, p: nat, b: nat)
    ensures 256 * (a * p + b) == a * (256 * p) + 256 * b
  {
  }

  lemma {:induction false} Bounded(data: Bytes)
    ensures SetBytes(data) < Pow256(|data|)
  {
    if data != [] {
      Bounded(data[..|data| - 1]);
    }
  }

  lemma {:induction false} PowersGrow(i: nat, j: nat)
    requires i <= j
    ensures Pow256(i) <= Pow256(j)
  {
    if i < j {
      PowersGrow(i, j - 1);
    }
  }

  /** The digits fit in k bytes exactly when the number is below 256^k. */
  lemma {:induction false} DigitsFit(n: nat, k: nat)
    ensures |Digits(n)| <= k <==> n < Pow256(k)
  {
    if |Digits(n)| <= k {
      Bounded(Digits(n));
      PowersGrow(|Digits(n)|, k);
    } else if k > 0 {
      DigitsFit(n / 256, k - 1);
    }
  }

  function Zeros(k: nat): (z: Bytes)
    ensures |z| == k && forall i | 0 <= i < k :: z[i] == 0
  {
    seq(k, i => 0)
  }

  lemma {:induction false} LeadingZeros(k: nat, data: Bytes)
    ensures SetBytes(Zeros(k) + data) == SetBytes(data)
  {
    var padded := Zeros(k) + data;
    if data != [] {
      assert padded[..|padded| - 1] == Zeros(k) + data[..|data| - 1];
      LeadingZeros(k, data[..|data| - 1]);
    } else if k > 0 {
      assert padded[..|padded| - 1] == Zeros(k - 1) + [];
      LeadingZeros(k - 1, []);
    }
  }

  /** Strings of one length are told apart by the numbers they stand for. */
  lemma {:induction false} SameNumberSameBytes(a: Bytes, b: Bytes)
    requires |a| == |b| && SetBytes(a) == SetBytes(b)
    ensures a == b
  {
    if a != [] {
      var a', b' := a[..|a| - 1], b[..|b| - 1];
      SameNumberSameBytes(a', b');
      assert a == a' + [a[|a| - 1]] && b == b' + [b[|b| - 1]];
    }
  }

  // ----- The encoding -----

  const HALF: nat := 32

  datatype Signature = Signature(r: int, s: int)

  /** Both numbers are natural and fit in 32 bytes. */
  predicate Encodable(sig: Signature) {
    0 <= sig.r < Pow256(HALF) && 0 <= sig.s < Pow256(HALF)
  }

  datatype DecodeError = InvalidLength(got: nat)
  datatype Result = Ok(sig: Signature) | Err(error: DecodeError)

  function Abs(n: int): nat {
    if n < 0 then -n else n
  }

  function Padded(n: nat): (data: Bytes)
    requires n < Pow256(HALF)
    ensures |data| == HALF
  {
    DigitsFit(n, HALF);
    Zeros(HALF - |Digits(n)|) + Digits(n)
  }

  lemma PaddedValue(n: nat)
    requires n < Pow256(HALF)
    ensures SetBytes(Padded(n)) == n
  {
    DigitsFit(n, HALF);
    LeadingZeros(HALF - |Digits(n)|, Digits(n));
  }

  /** The buffer after the first copy, and after the second, which runs over the first when s is too long. */
  ghost function Once(r: Bytes): (data: Bytes)
    requires |r| <= HALF
    ensures |data| == 2 * HALF
  {
    Zeros(HALF - |r|) + r + Zeros(HALF)
  }

  ghost function Twice(r: Bytes, s: Bytes): (data: Bytes)
    requires |r| <= HALF && |s| <= 2 * HALF
    ensures |data| == 2 * HALF
  {
    Once(r)[..2 * HALF - |s|] + s
  }

  /** big.Int.Bytes drops the sign. None where a slice bound below zero makes the program panic. */
  ghost function Encoded(sig: Signature): Option<Bytes> {
    var r, s := Digits(Abs(sig.r)), Digits(Abs(sig.s));
    if |r| > HALF || |s| > 2 * HALF then None else Some(Twice(r, s))
  }

  /** copy(dst[from:], src) for a source that fits. */
  method CopyAt(dst: array<Byte>, from: nat, src: Bytes)
    requires from + |src| <= dst.Length
    modifies dst
    ensures dst[..] == old(dst[..])[..from] + src + old(dst[..])[from + |src|..]
  {
    ghost var was := dst[..];
    for i := 0 to |src|
      invariant forall k | 0 <= k < dst.Length :: dst[k] == if from <= k < from + i then src[k - from] else was[k]
    {
      dst[from + i] := src[i];
    }
    assert dst[..] == was[..from] + src + was[from + |src|..];
  }

  method ToBytes(sig: Signature) returns (data: Option<Bytes>)
    ensures data == Encoded(sig)
  {
    var rBytes, sBytes := Digits(Abs(sig.r)), Digits(Abs(sig.s));
    var signature := new Byte[2 * HALF](_ => 0);
    ghost var empty := signature[..];
    if |rBytes| > HALF {
      return None;
    }
    CopyAt(signature, HALF - |rBytes|, rBytes);
    FirstCopy(empty, rBytes);
    if |sBytes| > 2 * HALF {
      return None;
    }
    CopyAt(signature, 2 * HALF - |sBytes|, sBytes);
    SecondCopy(rBytes, sBytes);
    data := Some(signature[..]);
  }

  lemma FirstCopy(empty: Bytes, r: Bytes)
    requires |r| <= HALF && |empty| == 2 * HALF && forall i | 0 <= i < |empty| :: empty[i] == 0
    ensures empty[..HALF - |r|] + r + empty[HALF - |r| + |r|..] == Once(r)
  {
    assert empty[..HALF - |r|] == Zeros(HALF - |r|);
    assert empty[HALF - |r| + |r|..] == Zeros(HALF);
  }

  lemma SecondCopy(r: Bytes, s: Bytes)
    requires |r| <= HALF && |s| <= 2 * HALF
    ensures Once(r)[..2 * HALF - |s|] + s + Once(r)[2 * HALF - |s| + |s|..] == Twice(r, s)
  {
    assert Once(r)[2 * HALF - |s| + |s|..] == [];
  }

  /** Exactly r of 2^256 and s of 2^512 or more, in absolute value, make the program panic. */
  lemma PanicsExactly(sig: Signature)
    ensures Encoded(sig).None? <==> Abs(sig.r) >= Pow256(HALF) || Abs(sig.s) >= Pow256(2 * HALF)
  {
    DigitsFit(Abs(sig.r), HALF);
    DigitsFit(Abs(sig.s), 2 * HALF);
  }

  /** The 64 bytes, one by one: the digits of S end at the end of the buffer; before them, those of R end in the middle,
      as far as S leaves them, and the rest is zero. */
  lemma EncodedByteByByte(sig: Signature, i: nat)
    requires Encoded(sig).Some? && i < 64
    ensures |Encoded(sig).value| == 64
    ensures var r, s := Digits(Abs(sig.r)), Digits(Abs(sig.s));
            Encoded(sig).value[i] ==
            if 64 - |s| <= i then s[i - (64 - |s|)] else if 32 - |r| <= i < 32 then r[i - (32 - |r|)] else 0
  {
  }

  /** Signatures that can be encoded become both numbers, each padded to 32 bytes. */
  lemma EncodedAsPadded(sig: Signature)
    requires Encodable(sig)
    ensures Encoded(sig) == Some(Padded(sig.r) + Padded(sig.s))
  {
    DigitsFit(sig.r, HALF);
    DigitsFit(sig.s, HALF);
    OnceThenPadded(Digits(sig.r), Digits(sig.s));
  }

  lemma OnceThenPadded(r: Bytes, s: Bytes)
    requires |r| <= HALF && |s| <= HALF
    ensures Twice(r, s) == (Zeros(HALF - |r|) + r) + (Zeros(HALF - |s|) + s)
  {
    var first := Zeros(HALF - |r|) + r;
    assert Zeros(HALF)[..HALF - |s|] == Zeros(HALF - |s|);
    assert Once(r)[..2 * HALF - |s|] == first + Zeros(HALF)[..HALF - |s|];
  }

  function FromBytes(data: Bytes): Result {
    if |data| != 2 * HALF then Err(InvalidLength(|data|))
    else Ok(Signature(SetBytes(data[..HALF]), SetBytes(data[HALF..])))
  }

  /** Decoding succeeds on every string of 64 bytes and on nothing else, and gives numbers that can be encoded. */
  lemma DecodesExactly(data: Bytes)
    ensures FromBytes(data).Ok? <==> |data| == 64
    ensures FromBytes(data).Ok? ==> Encodable(FromBytes(data).sig)
  {
    if |data| == 64 {
      Bounded(data[..HALF]);
      Bounded(data[HALF..]);
    }
  }

  /** Encoding, then decoding, gives the signature back exactly if both its numbers are natural and below 2^256.
      A negative number loses its sign, and an s of 2^256 or more is cut and overwrites r. */
  lemma DecodeEncoded(sig: Signature)
    requires Encoded(sig).Some?
    ensures FromBytes(Encoded(sig).value) == Ok(sig) <==> Encodable(sig)
  {
    DecodesExactly(Encoded(sig).value);
    if Encodable(sig) {
      EncodedAsPadded(sig);
      PaddedDecodes(sig);
    }
  }

  lemma PaddedDecodes(sig: Signature)
    requires Encodable(sig)
    ensures FromBytes(Padded(sig.r) + Padded(sig.s)) == Ok(sig)
  {
    PaddedValue(sig.r);
    PaddedValue(sig.s);
    var data := Padded(sig.r) + Padded(sig.s);
    assert data[..HALF] == Padded(sig.r) && data[HALF..] == Padded(sig.s);
  }

  /** Decoding, then encoding. */
  lemma EncodeDecoded(data: Bytes)
    requires |data| == 64
    ensures Encoded(FromBytes(data).sig) == Some(data)
  {
    DecodesExactly(data);
    var sig := FromBytes(data).sig;
    EncodedAsPadded(sig);
    PaddedIsUnique(sig.r, data[..HALF]);
    PaddedIsUnique(sig.s, data[HALF..]);
    assert data == data[..HALF] + data[HALF..];
  }

  lemma PaddedIsUnique(n: nat, data: Bytes)
    requires |data| == HALF && SetBytes(data) == n && n < Pow256(HALF)
    ensures Padded(n) == data
  {
    PaddedValue(n);
    SameNumberSameBytes(Padded(n), data);
  }
}
