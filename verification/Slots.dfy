/** Slot vectors: what an ideal ciphertext holds, and the vector arithmetic every form
    of the linear transform is built from. A rotation by k moves slot i + k to slot i,
    round the end; a plaintext is encoded by padding it with zeros to the slot count.
    The lemmas are the algebra the transform's proofs use: sums of vectors commute and
    associate, rotations compose and distribute over sums. */
module Slots {

  datatype Option<+T> = None | Some(value: T)

  type Vec = seq<real>

  /** An ideal ciphertext handle: None is C++'s null Ciphertext. */
  type Ct = Option<Vec>

  // ----- division and remainder by a variable -----

  lemma AtLeastOneTimes(a: int, n: int)
    requires 1 <= a && 0 <= n
    ensures n <= a * n
  {}

  lemma DivModUnique(x: int, q: int, r: int, n: int)
    requires 0 <= r < n
    requires x == q * n + r
    ensures x / n == q && x % n == r
  {
    var q', r' := x / n, x % n;
    assert x == q' * n + r' && 0 <= r' < n;
    assert (q - q') * n == q * n - q' * n == r' - r;
    if q > q' {
      AtLeastOneTimes(q - q', n);
    } else if q < q' {
      AtLeastOneTimes(q' - q, n);
    }
  }

  lemma ModPlus(a: int, b: int, n: int)
    requires 0 < n
    ensures (a % n + b) % n == (a + b) % n
  {
    var q, r := (a % n + b) / n, (a % n + b) % n;
    assert a + b == (a / n) * n + (a % n + b) == (a / n) * n + q * n + r == (a / n + q) * n + r;
    DivModUnique(a + b, a / n + q, r, n);
  }

  lemma ModSmall(a: int, n: int)
    requires 0 <= a < n
    ensures a % n == a && a / n == 0
  {
    DivModUnique(a, 0, a, n);
  }

  // ----- vectors of one length -----

  function Zero(n: nat): (r: Vec) {
    seq(n, _ => 0.0)
  }

  function Plus(a: Vec, b: Vec): (r: Vec)
    requires |a| == |b|
    ensures |r| == |a|
  {
    seq(|a|, i requires 0 <= i < |a| => a[i] + b[i])
  }

  function Times(a: Vec, b: Vec): (r: Vec)
    requires |a| == |b|
    ensures |r| == |a|
  {
    seq(|a|, i requires 0 <= i < |a| => a[i] * b[i])
  }

  /** Cyclic left rotation: slot i of the result is slot i + k of a. */
  function Rotate(a: Vec, k: int): (r: Vec)
    ensures |r| == |a|
  {
    seq(|a|, i requires 0 <= i < |a| => a[(i + k) % |a|])
  }

  /** A plaintext encoded for n slots: the values, then zeros. */
  function Encode(v: Vec, n: nat): (r: Vec)
    requires |v| <= n
    ensures |r| == n
  {
    v + Zero(n - |v|)
  }

  lemma PlusSlot(a: Vec, b: Vec, i: nat)
    requires |a| == |b| && i < |a|
    ensures Plus(a, b)[i] == a[i] + b[i]
  {}

  lemma TimesSlot(a: Vec, b: Vec, i: nat)
    requires |a| == |b| && i < |a|
    ensures Times(a, b)[i] == a[i] * b[i]
  {}

  lemma EncodeFull(v: Vec)
    ensures Encode(v, |v|) == v
  {}

  lemma PlusZero(a: Vec)
    ensures Plus(Zero(|a|), a) == a
    ensures Plus(a, Zero(|a|)) == a
  {}

  lemma PlusCommutes(a: Vec, b: Vec)
    requires |a| == |b|
    ensures Plus(a, b) == Plus(b, a)
  {}

  lemma PlusAssociates(a: Vec, b: Vec, c: Vec)
    requires |a| == |b| == |c|
    ensures Plus(Plus(a, b), c) == Plus(a, Plus(b, c))
  {}

  lemma RotateZero(a: Vec)
    ensures Rotate(a, 0) == a
  {
    forall i | 0 <= i < |a| ensures Rotate(a, 0)[i] == a[i] {
      ModSmall(i, |a|);
    }
  }

  lemma RotateZeros(n: nat, k: int)
    ensures Rotate(Zero(n), k) == Zero(n)
  {}

  lemma RotateSlot(a: Vec, k: int, i: nat)
    requires i < |a|
    ensures Rotate(a, k)[i] == a[(i + k) % |a|]
  {}

  lemma RotateRotate(a: Vec, j: int, k: int)
    ensures Rotate(Rotate(a, j), k) == Rotate(a, j + k)
  {
    forall i | 0 <= i < |a| ensures Rotate(Rotate(a, j), k)[i] == Rotate(a, j + k)[i] {
      var at := (i + k) % |a|;
      RotateSlot(Rotate(a, j), k, i);
      RotateSlot(a, j, at);
      RotateSlot(a, j + k, i);
      ModPlus(i + k, j, |a|);
      assert i + k + j == i + (j + k);
    }
  }

  lemma RotatePlus(a: Vec, b: Vec, k: int)
    requires |a| == |b|
    ensures Rotate(Plus(a, b), k) == Plus(Rotate(a, k), Rotate(b, k))
  {}
}
