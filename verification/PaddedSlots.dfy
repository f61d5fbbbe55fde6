/** When the cleartext twins compute what the encrypted operations do on the same vector
    padded with zeros: for sums and products always, for a rotation and for the linear
    transform on exactly the lengths given here. */
module PaddedSlots {
  import opened Slots
  import opened PlainSlots
  import LT = LinearTransform

  // ----- elementwise -----

  lemma EncodeAt(v: Vec, n: nat, i: nat)
    requires |v| <= n && i < n
    ensures Encode(v, n)[i] == At(v, i)
  {}

  lemma AddedPads(a: Vec, b: Vec, n: nat)
    requires |a| <= n && |b| <= n
    ensures Encode(Added(a, b), n) == Plus(Encode(a, n), Encode(b, n))
  {
    forall i | 0 <= i < n ensures Encode(Added(a, b), n)[i] == Plus(Encode(a, n), Encode(b, n))[i] {}
  }

  lemma MultipliedPads(a: Vec, b: Vec, n: nat)
    requires |a| <= n && |b| <= n
    ensures Encode(Multiplied(a, b), n) == Times(Encode(a, n), Encode(b, n))
  {
    hide Multiplied;
    forall i | 0 <= i < n ensures Encode(Multiplied(a, b), n)[i] == Times(Encode(a, n), Encode(b, n))[i] {
      if i < |a| && i < |b| { MultipliedSlot(a, b, i); }
    }
  }

  /** A null accumulator needs no case of its own. */
  lemma NullsafeIsAdded(a: Vec, b: Vec)
    ensures NullsafeAdded(a, b) == Added(a, b)
  {}

  /** A function on every slot goes with the padding exactly when it keeps the zeros. */
  lemma MappedExact(a: Vec, f: real -> real, n: nat)
    requires |a| <= n
    ensures Encode(Mapped(a, f), n) == Mapped(Encode(a, n), f) <==> |a| == n || f(0.0) == 0.0
  {
    var left, right := Encode(Mapped(a, f), n), Mapped(Encode(a, n), f);
    if |a| < n {
      assert left[|a|] == 0.0 && right[|a|] == f(0.0);
      if f(0.0) == 0.0 {
        assert left == right;
      }
    } else {
      assert left == right;
    }
  }

  // ----- rotation -----

  /** Slot i of every vector of length m, rotated and then padded to n slots, is what the
      rotation of the padded vector has there. */
  predicate SlotKept(m: nat, k: int, n: nat, i: nat)
    requires n > 0
  {
    m == 0 || if i < m then (i + k) % n == (i + k) % m else (i + k) % n >= m
  }

  predicate Kept(m: nat, k: int, n: nat, upTo: nat)
    requires n > 0
  {
    forall i :: 0 <= i < upTo ==> SlotKept(m, k, n, i)
  }

  /** The same of all n slots: the vector is full or empty, or neither of the two
      rotations moves anything. */
  predicate RotationKept(m: nat, k: int, n: nat)
    requires n > 0
  {
    m == n || m == 0 || (k % n == 0 && k % m == 0)
  }

  lemma KeptClosed(m: nat, k: int, n: nat)
    requires n > 0 && m <= n
    ensures Kept(m, k, n, n) <==> RotationKept(m, k, n)
  {
    if 0 < m < n {
      if RotationKept(m, k, n) {
        forall i | 0 <= i < n ensures SlotKept(m, k, n, i) {
          ModPlus(k, i, n);
          ModSmall(i, n);
          if i < m {
            ModPlus(k, i, m);
            ModSmall(i, m);
          }
        }
      } else {
        var i := MovedSlot(m, k, n);
      }
    }
  }

  lemma MovedSlot(m: nat, k: int, n: nat) returns (i: nat)
    requires 0 < m < n && !RotationKept(m, k, n)
    ensures i < n && !SlotKept(m, k, n, i)
  {
    var s := k % n;
    if s == 0 {
      i := 0;
    } else if n - s >= m {
      i := n - s;
      ModPlus(k, i, n);
      DivModUnique(s + i, 1, 0, n);
    } else {
      i := n - 1 - s;
      ModPlus(k, i, n);
      ModSmall(n - 1, n);
      assert (i + k) % n == n - 1;
      assert (i + k) % m < m;
    }
  }

  lemma RotatedAt(a: Vec, k: int, i: nat)
    ensures i < |a| ==> At(Rotated(a, k), i) == a[(i + k) % |a|]
    ensures i >= |a| ==> At(Rotated(a, k), i) == 0.0
  {
    hide Rotate, Rotated;
    RotatedIsRotate(a, k);
    if i < |a| { RotateSlot(a, k, i); }
  }

  lemma PaddedRotateAt(a: Vec, k: int, n: nat, i: nat)
    requires |a| <= n && i < n
    ensures Rotate(Encode(a, n), k)[i] == At(a, (i + k) % n)
  {
    RotateSlot(Encode(a, n), k, i);
    EncodeAt(a, n, (i + k) % n);
  }

  function Unit(m: nat, at: nat): (r: Vec)
    ensures |r| == m
  {
    seq(m, i => if i == at then 1.0 else 0.0)
  }

  /** A vector of length m whose slot i is not kept. */
  function Spoiler(m: nat, k: int, n: nat, i: nat): (r: Vec)
    requires n > 0
    ensures |r| == m
  {
    Unit(m, if m == 0 then 0 else if i < m then (i + k) % m else (i + k) % n)
  }

  lemma SpoilerAt(m: nat, k: int, n: nat, i: nat)
    requires m <= n && i < n && !SlotKept(m, k, n, i)
    ensures var a := Spoiler(m, k, n, i);
      At(Rotated(a, k), i) == (if i < m then 1.0 else 0.0)
      && Rotate(Encode(a, n), k)[i] == (if i < m then 0.0 else 1.0)
  {
    hide Rotated, Rotate;
    var a := Spoiler(m, k, n, i);
    RotatedAt(a, k, i);
    PaddedRotateAt(a, k, n, i);
  }

  /** Rotating and padding commute on all vectors of a length exactly when the length and
      the rotation say so. */
  lemma RotationExact(m: nat, k: int, n: nat)
    requires n > 0 && m <= n
    ensures RotationKept(m, k, n)
       <==> forall a: Vec :: |a| == m ==> Encode(Rotated(a, k), n) == Rotate(Encode(a, n), k)
  {
    hide Rotated, Rotate, Encode, RotationKept;
    KeptClosed(m, k, n);
    if RotationKept(m, k, n) {
      forall a: Vec | |a| == m ensures Encode(Rotated(a, k), n) == Rotate(Encode(a, n), k) {
        RotationPads(a, k, n);
      }
    } else {
      var i: nat :| i < n && !SlotKept(m, k, n, i);
      SpoilerAt(m, k, n, i);
      EncodeAt(Rotated(Spoiler(m, k, n, i), k), n, i);
    }
  }

  lemma SlotKeeps(a: Vec, k: int, n: nat, i: nat)
    requires |a| <= n && i < n && SlotKept(|a|, k, n, i)
    ensures At(Rotated(a, k), i) == Rotate(Encode(a, n), k)[i]
  {
    hide Rotated, Rotate;
    RotatedAt(a, k, i);
    PaddedRotateAt(a, k, n, i);
  }

  lemma RotationPads(a: Vec, k: int, n: nat)
    requires n > 0 && |a| <= n && RotationKept(|a|, k, n)
    ensures Encode(Rotated(a, k), n) == Rotate(Encode(a, n), k)
  {
    hide Rotated, Rotate, Encode;
    KeptClosed(|a|, k, n);
    forall i | 0 <= i < n ensures Encode(Rotated(a, k), n)[i] == Rotate(Encode(a, n), k)[i] {
      EncodeAt(Rotated(a, k), n, i);
      SlotKeeps(a, k, n, i);
    }
  }

  // ----- the transform: lengths -----

  function Lengths(d: LT.Diagonals): (r: seq<nat>)
    ensures |r| == |d|
  {
    seq(|d|, k requires 0 <= k < |d| => |d[k]|)
  }

  /** The longest of `count` lengths from `base` on. */
  function Longest(lens: seq<nat>, base: nat, count: nat): nat
    requires base + count <= |lens|
  {
    if count == 0 then 0 else Larger(Longest(lens, base, count - 1), lens[base + count - 1])
  }

  lemma LengthAt(d: LT.Diagonals, k: nat)
    requires k < |d|
    ensures Lengths(d)[k] == |d[k]|
  {}

  lemma {:induction false} PartLength(x: Vec, d: LT.Diagonals, base: nat, count: nat)
    requires base + count <= |d|
    ensures |Part(x, d, base, count)| == Smaller(|x|, Longest(Lengths(d), base, count))
  {
    hide Rotated, Added, NullsafeAdded, Multiplied, Lengths;
    if count > 0 {
      PartLength(x, d, base, count - 1);
      LengthAt(d, base + count - 1);
      NullsafeIsAdded(Part(x, d, base, count - 1), Multiplied(Rotated(x, count - 1), d[base + count - 1]));
    }
  }

  lemma {:induction false} LongestSplits(lens: seq<nat>, base: nat, count: nat)
    requires base + count <= |lens|
    ensures Longest(lens, 0, base + count) == Larger(Longest(lens, 0, base), Longest(lens, base, count))
  {
    if count > 0 { LongestSplits(lens, base, count - 1); }
  }

  /** The giant step that starts at diagonal base. */
  function PartOf(x: Vec, d: LT.Diagonals, bstep: nat, base: nat): Vec
    requires base <= |d|
  {
    Part(x, d, base, Smaller(bstep, |d| - base))
  }

  /** How long its part is, for an input of length m. */
  function StepLength(m: nat, lens: seq<nat>, bstep: nat, base: nat): nat
    requires base <= |lens|
  {
    Smaller(m, Longest(lens, base, Smaller(bstep, |lens| - base)))
  }

  /** One giant step of the twin's transform, without its cases. */
  lemma TransformedStep(x: Vec, d: LT.Diagonals, bstep: nat, g: nat)
    requires bstep > 0 && 0 < g && Base(g, bstep) <= |d| + bstep
    requires Base(g, bstep) == Base(g - 1, bstep) + bstep && Base(g - 1, bstep) < |d|
    ensures var base := Base(g - 1, bstep);
      Transformed(x, d, bstep, g)
        == Added(Transformed(x, d, bstep, g - 1), Rotated(PartOf(x, d, bstep, base), base))
  {
    hide Part, Rotated, Added, NullsafeAdded;
    var base := Base(g - 1, bstep);
    var part := PartOf(x, d, bstep, base);
    if g == 1 {
      hide Base;
      NoBase(bstep);
      RotatedIsRotate(part, 0);
      RotateZero(part);
    }
    NullsafeIsAdded(Transformed(x, d, bstep, g - 1), Rotated(part, base));
  }

  lemma {:induction false} TransformedLength(x: Vec, d: LT.Diagonals, bstep: nat, g: nat)
    requires bstep > 0 && g <= Steps(|d|, bstep)
    ensures Base(g, bstep) <= |d| + bstep
    ensures |Transformed(x, d, bstep, g)| == Smaller(|x|, Longest(Lengths(d), 0, Smaller(Base(g, bstep), |d|)))
  {
    hide Part, Rotated, Base, Longest, Lengths;
    BaseMonotone(g, Steps(|d|, bstep), bstep);
    if g == 0 {
      NoBase(bstep);
      NoneLongest(Lengths(d), 0);
    } else {
      TransformedLength(x, d, bstep, g - 1);
      BaseBefore(g, bstep);
      BelowSteps(|d|, bstep, g - 1);
      hide Transformed;
      var base := Base(g - 1, bstep);
      TransformedStep(x, d, bstep, g);
      PartLength(x, d, base, Smaller(bstep, |d| - base));
      LongestSplits(Lengths(d), base, Smaller(bstep, |d| - base));
    }
  }

  lemma NoneLongest(lens: seq<nat>, base: nat)
    requires base <= |lens|
    ensures Longest(lens, base, 0) == 0
  {}

  /** The whole transform is as long as its input or its longest diagonal. */
  lemma TransformLength(x: Vec, d: LT.Diagonals, bstep: nat)
    requires bstep > 0
    ensures |Transformed(x, d, bstep, Steps(|d|, bstep))| == Smaller(|x|, Longest(Lengths(d), 0, |d|))
  {
    hide Transformed, Longest, Lengths, Base;
    TransformedLength(x, d, bstep, Steps(|d|, bstep));
  }

  // ----- the transform: agreement -----

  /** Every product is taken of slots that the baby rotation keeps. */
  predicate BabiesKept(m: nat, lens: seq<nat>, bstep: nat, n: nat)
    requires n > 0 && bstep > 0
  {
    forall k :: 0 <= k < |lens| ==> Kept(m, k % bstep, n, lens[k])
  }

  /** Every giant rotation goes with the padding of its part. */
  predicate GiantsKept(m: nat, lens: seq<nat>, bstep: nat, n: nat)
    requires n > 0 && bstep > 0
  {
    forall base :: 0 <= base < |lens| && LT.IsBase(base, bstep)
      ==> RotationKept(StepLength(m, lens, bstep, base), base, n)
  }

  predicate TransformKept(m: nat, lens: seq<nat>, bstep: nat, n: nat)
    requires n > 0 && bstep > 0
  {
    BabiesKept(m, lens, bstep, n) && GiantsKept(m, lens, bstep, n)
  }

  lemma ProductPads(x: Vec, b: nat, v: Vec, n: nat)
    requires n > 0 && |x| <= n && |v| <= n && Kept(|x|, b, n, |v|)
    ensures Encode(Multiplied(Rotated(x, b), v), n) == Times(Rotate(Encode(x, n), b), Encode(v, n))
  {
    hide Rotated, Rotate, Multiplied, Encode;
    var left, right := Encode(Multiplied(Rotated(x, b), v), n), Times(Rotate(Encode(x, n), b), Encode(v, n));
    forall i | 0 <= i < n ensures left[i] == right[i] {
      EncodeAt(Multiplied(Rotated(x, b), v), n, i);
      TimesSlot(Rotate(Encode(x, n), b), Encode(v, n), i);
      EncodeAt(v, n, i);
      if i < |v| {
        SlotKeeps(x, b, n, i);
        if i < |x| { MultipliedSlot(Rotated(x, b), v, i); }
      }
    }
  }

  lemma {:induction false} PartPads(x: Vec, d: LT.Diagonals, bstep: nat, base: nat, m: nat, n: nat)
    requires n > 0 && bstep > 0 && |x| <= n && LT.Encodable(d, n) && BabiesKept(|x|, Lengths(d), bstep, n)
    requires LT.IsBase(base, bstep) && m <= bstep && base + m <= |d|
    ensures |Part(x, d, base, m)| <= n
    ensures Encode(Part(x, d, base, m), n) == LT.PartSum(Encode(x, n), d, base, m)
  {
    hide Kept, Rotated, Rotate, Added, NullsafeAdded, Multiplied, LT.IsBase;
    if m > 0 {
      PartPads(x, d, bstep, base, m - 1, n);
      var k := base + m - 1;
      LT.InGiantStep(base, bstep, m - 1);
      assert |d[k]| == Lengths(d)[k] && Kept(|x|, k % bstep, n, Lengths(d)[k]);
      ProductPads(x, m - 1, d[k], n);
      var product := Multiplied(Rotated(x, m - 1), d[k]);
      NullsafeIsAdded(Part(x, d, base, m - 1), product);
      AddedPads(Part(x, d, base, m - 1), product, n);
    }
  }

  lemma BaseIsBase(g: nat, bstep: nat)
    requires bstep > 0
    ensures LT.IsBase(Base(g, bstep), bstep)
  {
    DivModUnique(Base(g, bstep), g, 0, bstep);
  }

  /** A giant step, rotated and padded, is the sum of its own diagonals' terms. */
  lemma StepPads(x: Vec, d: LT.Diagonals, bstep: nat, base: nat, n: nat)
    requires n > 0 && bstep > 0 && |x| <= n && LT.Encodable(d, n) && TransformKept(|x|, Lengths(d), bstep, n)
    requires LT.IsBase(base, bstep) && base < |d|
    ensures |PartOf(x, d, bstep, base)| <= n
    ensures Encode(Rotated(PartOf(x, d, bstep, base), base), n)
         == LT.TermSum(Encode(x, n), d, bstep, base, base + Smaller(bstep, |d| - base))
  {
    hide BabiesKept, Part, Rotated, Rotate, Lengths, RotationKept, LT.IsBase, LT.Encodable, LT.PartSum, LT.TermSum;
    var m := Smaller(bstep, |d| - base);
    PartPads(x, d, bstep, base, m, n);
    PartLength(x, d, base, m);
    RotationPads(PartOf(x, d, bstep, base), base, n);
    LT.RotatedPart(Encode(x, n), d, bstep, base, m);
  }

  lemma NoTerms(x: Vec, d: LT.Diagonals, bstep: nat)
    requires 0 < bstep && LT.Encodable(d, |x|)
    ensures LT.TermSum(x, d, bstep, 0, 0) == Zero(|x|)
  {}

  lemma {:induction false} TransformedPads(x: Vec, d: LT.Diagonals, bstep: nat, g: nat, n: nat)
    requires n > 0 && bstep > 0 && |x| <= n && LT.Encodable(d, n) && TransformKept(|x|, Lengths(d), bstep, n)
    requires g <= Steps(|d|, bstep)
    ensures Base(g, bstep) <= |d| + bstep && |Transformed(x, d, bstep, g)| <= n
    ensures Encode(Transformed(x, d, bstep, g), n)
         == LT.TermSum(Encode(x, n), d, bstep, 0, Smaller(Base(g, bstep), |d|))
  {
    hide TransformKept, Rotated, Lengths, LT.IsBase, LT.Encodable, LT.TermSum, Base, Longest, PartOf;
    BaseMonotone(g, Steps(|d|, bstep), bstep);
    if g == 0 {
      NoBase(bstep);
      NoTerms(Encode(x, n), d, bstep);
    } else {
      TransformedPads(x, d, bstep, g - 1, n);
      TransformedLength(x, d, bstep, g);
      BaseBefore(g, bstep);
      BelowSteps(|d|, bstep, g - 1);
      TransformedStep(x, d, bstep, g);
      hide Transformed;
      var base := Base(g - 1, bstep);
      BaseIsBase(g - 1, bstep);
      StepPads(x, d, bstep, base, n);
      AddedPads(Transformed(x, d, bstep, g - 1), Rotated(PartOf(x, d, bstep, base), base), n);
      LT.TermSumSplit(Encode(x, n), d, bstep, 0, base, base + Smaller(bstep, |d| - base));
    }
  }

  /** The twin's transform of a vector, padded, is the transform of the padded vector. */
  predicate SameTransform(x: Vec, d: LT.Diagonals, bstep: nat, n: nat)
    requires bstep > 0 && |x| <= n && LT.Encodable(d, n)
  {
    && |Transformed(x, d, bstep, Steps(|d|, bstep))| <= n
    && Encode(Transformed(x, d, bstep, Steps(|d|, bstep)), n) == LT.TermSum(Encode(x, n), d, bstep, 0, |d|)
  }

  lemma TransformPads(x: Vec, d: LT.Diagonals, bstep: nat, n: nat)
    requires n > 0 && bstep > 0 && |x| <= n && LT.Encodable(d, n) && TransformKept(|x|, Lengths(d), bstep, n)
    ensures SameTransform(x, d, bstep, n)
  {
    hide TransformKept, Transformed, LT.TermSum, Base, Lengths, LT.Encodable;
    TransformedPads(x, d, bstep, Steps(|d|, bstep), n);
  }
}
