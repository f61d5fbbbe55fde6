/** The cleartext twins of the FHE operations, on slot vectors of any length. An empty
    vector stands for a ciphertext that nothing was put in yet. Sums take the longer of
    the two lengths and products the shorter one, as if zeros followed; `PaddedSlots`
    says for which lengths the other operations do too, and `TwoModes` where a program's
    twin computes the same. The methods are the generated C++ functions, each proved
    against its function here. */
module PlainSlots {
  import opened Slots
  import LT = LinearTransform

  // ----- elementwise -----

  function Larger(a: nat, b: nat): nat {
    if a < b then b else a
  }

  function Smaller(a: nat, b: nat): nat {
    if a < b then a else b
  }

  /** The values of a vector, then zeros. */
  function At(v: Vec, i: nat): real {
    if i < |v| then v[i] else 0.0
  }

  function Added(a: Vec, b: Vec): (r: Vec)
    ensures |r| == Larger(|a|, |b|)
  {
    seq(Larger(|a|, |b|), i requires 0 <= i => At(a, i) + At(b, i))
  }

  function Subtracted(a: Vec, b: Vec): (r: Vec)
    ensures |r| == Larger(|a|, |b|)
  {
    seq(Larger(|a|, |b|), i requires 0 <= i => At(a, i) - At(b, i))
  }

  function Multiplied(a: Vec, b: Vec): (r: Vec)
    ensures |r| == Smaller(|a|, |b|)
  {
    seq(Smaller(|a|, |b|), i requires 0 <= i < Smaller(|a|, |b|) => a[i] * b[i])
  }

  lemma MultipliedSlot(a: Vec, b: Vec, i: nat)
    requires i < |a| && i < |b|
    ensures Multiplied(a, b)[i] == a[i] * b[i]
  {}

  function Mapped(a: Vec, f: real -> real): (r: Vec)
    ensures |r| == |a|
  {
    seq(|a|, i requires 0 <= i < |a| => f(a[i]))
  }

  /** `a.resize(n, 0.0)` */
  method Resize(a: Vec, n: nat) returns (r: Vec)
    requires |a| <= n
    ensures |r| == n && forall i :: 0 <= i < n ==> r[i] == At(a, i)
  {
    r := a;
    while |r| < n
      invariant |a| <= |r| <= n && forall i :: 0 <= i < |r| ==> r[i] == At(a, i)
    {
      r := r + [0.0];
    }
  }

  method Add(a: Vec, b: Vec) returns (r: Vec)
    ensures r == Added(a, b)
  {
    r := a;
    if |r| < |b| {
      r := Resize(r, |b|);
    }
    for i := 0 to |b|
      invariant |r| == Larger(|a|, |b|)
      invariant forall j :: 0 <= j < |r| ==> r[j] == if j < i then At(a, j) + b[j] else At(a, j)
    {
      r := r[i := r[i] + b[i]];
    }
  }

  method Sub(a: Vec, b: Vec) returns (r: Vec)
    ensures r == Subtracted(a, b)
  {
    r := a;
    if |r| < |b| {
      r := Resize(r, |b|);
    }
    for i := 0 to |b|
      invariant |r| == Larger(|a|, |b|)
      invariant forall j :: 0 <= j < |r| ==> r[j] == if j < i then At(a, j) - b[j] else At(a, j)
    {
      r := r[i := r[i] - b[i]];
    }
  }

  method Mul(a: Vec, b: Vec) returns (r: Vec)
    ensures r == Multiplied(a, b)
  {
    var n := Smaller(|a|, |b|);
    r := Zero(n);
    for i := 0 to n
      invariant |r| == n
      invariant forall j :: 0 <= j < i ==> r[j] == a[j] * b[j]
    {
      r := r[i := a[i] * b[i]];
    }
    forall i | 0 <= i < n ensures r[i] == Multiplied(a, b)[i] {}
  }

  /** `for (auto& x : a) x = f(x)`, the form of every scalar twin and of negate. */
  method Apply(a: Vec, f: real -> real) returns (r: Vec)
    ensures r == Mapped(a, f)
  {
    r := a;
    for i := 0 to |a|
      invariant |r| == |a|
      invariant forall j :: 0 <= j < |r| ==> r[j] == if j < i then f(a[j]) else a[j]
    {
      r := r[i := f(r[i])];
    }
  }

  // ----- rotation -----

  /** C++'s remainder, which has the sign of the dividend. */
  function Rem(k: int, n: nat): (r: int)
    requires n > 0
    ensures 0 < r + n && r < n
  {
    if k >= 0 then k % n else -((-k) % n)
  }

  function Rotated(a: Vec, k: int): (r: Vec)
    ensures |r| == |a|
  {
    if |a| == 0 then a
    else
      RemTwice(k, |a|);
      var m := Rem(Rem(k, |a|) + |a|, |a|);
      a[m..] + a[..m]
  }

  /** Taking the remainder twice gives the one that is not negative. */
  lemma RemTwice(k: int, n: nat)
    requires n > 0
    ensures 0 <= Rem(Rem(k, n) + n, n) < n
    ensures Rem(Rem(k, n) + n, n) == k % n
  {
    if k >= 0 {
      var r := k % n;
      assert r + n == 1 * n + r;
      DivModUnique(r + n, 1, r, n);
    } else {
      var q, s := (-k) / n, (-k) % n;
      assert -k == q * n + s;
      if s == 0 {
        assert k == (-q) * n + 0;
        DivModUnique(k, -q, 0, n);
        DivModUnique(n, 1, 0, n);
      } else {
        assert k == (-q - 1) * n + (n - s);
        DivModUnique(k, -q - 1, n - s, n);
        ModSmall(n - s, n);
      }
    }
  }

  /** Either way of writing it, a rotation is cyclic: slot i takes slot i + k. */
  lemma RotatedIsRotate(a: Vec, k: int)
    ensures Rotated(a, k) == Rotate(a, k)
  {
    var n := |a|;
    if n > 0 {
      RemTwice(k, n);
      var m := k % n;
      forall i | 0 <= i < n ensures Rotated(a, k)[i] == Rotate(a, k)[i] {
        RotateSlot(a, k, i);
        ModPlus(k, i, n);
        if i < n - m {
          ModSmall(m + i, n);
        } else {
          assert m + i == 1 * n + (m + i - n);
          DivModUnique(m + i, 1, m + i - n, n);
        }
      }
    }
  }

  // ----- accumulation and the linear transform -----

  function NullsafeAdded(a: Vec, b: Vec): Vec {
    if |a| == 0 then b else Added(a, b)
  }

  /** The first m products of the giant step that starts at diagonal base. */
  function Part(x: Vec, d: LT.Diagonals, base: nat, m: nat): Vec
    requires base + m <= |d|
  {
    if m == 0 then [] else NullsafeAdded(Part(x, d, base, m - 1), Multiplied(Rotated(x, m - 1), d[base + m - 1]))
  }

  /** The giant steps before the one that starts at diagonal base. */
  function Transformed(x: Vec, d: LT.Diagonals, bstep: nat, g: nat): Vec
    requires bstep > 0 && Base(g, bstep) <= |d| + bstep
  {
    if g == 0 then []
    else
      BaseBefore(g, bstep);
      var base := Base(g - 1, bstep);
      if base >= |d| then Transformed(x, d, bstep, g - 1)
      else
        var part := Part(x, d, base, Smaller(bstep, |d| - base));
        NullsafeAdded(Transformed(x, d, bstep, g - 1), if g == 1 then part else Rotated(part, base))
  }

  function Base(g: nat, bstep: nat): nat {
    g * bstep
  }

  lemma BaseBefore(g: nat, bstep: nat)
    requires g > 0
    ensures Base(g, bstep) == Base(g - 1, bstep) + bstep
  {}

  method NullsafeAdd(a: Vec, b: Vec) returns (r: Vec)
    ensures r == NullsafeAdded(a, b)
  {
    if |a| == 0 {
      return b;
    }
    r := Add(a, b);
  }

  method OnePart(x: Vec, d: LT.Diagonals, bstep: nat, base: nat) returns (part: Vec)
    requires bstep > 0 && base < |d|
    ensures part == Part(x, d, base, Smaller(bstep, |d| - base))
  {
    hide Rotated, Multiplied, NullsafeAdded;
    part := [];
    var b := 0;
    while b < bstep && base + b < |d|
      invariant 0 <= b <= Smaller(bstep, |d| - base)
      invariant part == Part(x, d, base, b)
    {
      var product := Mul(Rotated(x, b), d[base + b]);
      part := NullsafeAdd(part, product);
      b := b + 1;
    }
  }

  /** How many giant steps there are. */
  function Steps(count: nat, bstep: nat): (g: nat)
    requires bstep > 0
    ensures count <= Base(g, bstep) < count + bstep
  {
    if count == 0 then 0
    else
      var q, r := (count - 1) / bstep, (count - 1) % bstep;
      assert count - 1 == q * bstep + r;
      BaseBefore(q + 1, bstep);
      q + 1
  }

  /** nb_plain::linear_transform, on vectors of any length. */
  method PlainTransform(x: Vec, d: LT.Diagonals, bstep: nat) returns (y: Vec)
    requires bstep > 0
    ensures y == Transformed(x, d, bstep, Steps(|d|, bstep))
  {
    hide Part, Rotated, NullsafeAdded, Base;
    y := [];
    var g := 0;
    assert Base(0, bstep) == 0 by { NoBase(bstep); }
    while Base(g, bstep) < |d|
      invariant Base(g, bstep) <= |d| + bstep && g <= Steps(|d|, bstep)
      invariant y == Transformed(x, d, bstep, g)
      decreases |d| + bstep - Base(g, bstep)
    {
      var base := Base(g, bstep);
      var part := OnePart(x, d, bstep, base);
      if g > 0 {
        part := Rotated(part, base);
      }
      y := NullsafeAdd(y, part);
      BaseBefore(g + 1, bstep);
      BelowSteps(|d|, bstep, g);
      g := g + 1;
    }
    BelowSteps(|d|, bstep, g);
  }

  lemma NoBase(bstep: nat)
    ensures Base(0, bstep) == 0
  {}

  lemma BelowSteps(count: nat, bstep: nat, g: nat)
    requires bstep > 0 && g <= Steps(count, bstep)
    ensures Base(g, bstep) < count <==> g < Steps(count, bstep)
  {
    if g < Steps(count, bstep) {
      BaseMonotone(g + 1, Steps(count, bstep), bstep);
      BaseBefore(g + 1, bstep);
    }
  }

  lemma BaseMonotone(g: nat, h: nat, bstep: nat)
    requires g <= h
    ensures Base(g, bstep) <= Base(h, bstep)
  {
    assert h * bstep == g * bstep + (h - g) * bstep;
  }
}
