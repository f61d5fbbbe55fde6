/** The lengths on which the cleartext twin of the linear transform differs from the
    encrypted one for some values: exactly those `TransformKept` leaves out. */
module ShortTransforms {
  import opened Slots
  import opened PlainSlots
  import opened PaddedSlots
  import LT = LinearTransform

  // ----- vectors of zeros -----

  predicate Blank(v: Vec) {
    v == Zero(|v|)
  }

  lemma EncodeBlank(v: Vec, n: nat)
    requires |v| <= n
    ensures Encode(v, n) == Zero(n) <==> Blank(v)
  {
    if Encode(v, n) == Zero(n) {
      forall i | 0 <= i < |v| ensures v[i] == 0.0 {
        assert v[i] == Encode(v, n)[i];
      }
    }
  }

  lemma RotateBlank(v: Vec, k: int)
    ensures Blank(Rotate(v, k)) <==> Blank(v)
  {
    hide Rotate;
    RotateZeros(|v|, k);
    RotateZeros(|v|, -k);
    RotateRotate(v, k, -k);
    RotateZero(v);
  }

  lemma BlankProduct(a: Vec, l: nat)
    ensures Blank(Multiplied(a, Zero(l)))
  {
    forall i | 0 <= i < |a| && i < l ensures Multiplied(a, Zero(l))[i] == 0.0 {
      MultipliedSlot(a, Zero(l), i);
    }
  }

  lemma BlankSum(a: Vec, b: Vec, n: nat)
    requires |a| <= n && |b| <= n
    ensures Blank(a) ==> Encode(Added(a, b), n) == Encode(b, n)
    ensures Blank(b) ==> Encode(Added(a, b), n) == Encode(a, n)
  {
    hide Added, Encode;
    AddedPads(a, b, n);
    EncodeBlank(a, n);
    EncodeBlank(b, n);
    PlusZero(Encode(a, n));
    PlusZero(Encode(b, n));
  }

  // ----- sets of diagonals with one that is not blank -----

  predicate BlankBut(d: LT.Diagonals, k: nat) {
    forall j :: 0 <= j < |d| && j != k ==> Blank(d[j])
  }

  function OnlyAt(lens: seq<nat>, k: nat, v: Vec): (d: LT.Diagonals)
    requires k < |lens| && |v| == lens[k]
    ensures |d| == |lens| && d[k] == v && BlankBut(d, k) && Lengths(d) == lens
  {
    seq(|lens|, j requires 0 <= j < |lens| => if j == k then v else Zero(lens[j]))
  }

  lemma BlankTerm(x: Vec, d: LT.Diagonals, bstep: nat, k: nat)
    requires 0 < bstep && LT.Encodable(d, |x|) && k < |d| && Blank(d[k])
    ensures LT.Term(x, d, bstep, k) == Zero(|x|)
  {
    hide Rotate, Times;
    EncodeBlank(d[k], |x|);
    var rotated := Rotate(x, k % bstep);
    forall i | 0 <= i < |x| ensures Times(rotated, Zero(|x|))[i] == 0.0 {
      TimesSlot(rotated, Zero(|x|), i);
    }
    assert Times(rotated, Zero(|x|)) == Zero(|x|);
    RotateZeros(|x|, bstep * (k / bstep));
  }

  lemma {:induction false} OneTerm(x: Vec, d: LT.Diagonals, bstep: nat, k: nat, hi: nat)
    requires 0 < bstep && LT.Encodable(d, |x|) && k < |d| && BlankBut(d, k) && hi <= |d|
    ensures LT.TermSum(x, d, bstep, 0, hi) == if hi <= k then Zero(|x|) else LT.Term(x, d, bstep, k)
  {
    hide LT.Term, LT.Encodable;
    if hi > 0 {
      OneTerm(x, d, bstep, k, hi - 1);
      if hi - 1 != k { BlankTerm(x, d, bstep, hi - 1); }
      PlusZero(LT.TermSum(x, d, bstep, 0, hi - 1));
      PlusZero(LT.Term(x, d, bstep, hi - 1));
    }
  }

  /** A giant step holds what its one diagonal adds to it, or nothing. */
  lemma {:induction false} OnePartProduct(x: Vec, d: LT.Diagonals, base: nat, count: nat, k: nat, n: nat)
    requires |x| <= n && k < |d| && BlankBut(d, k) && base + count <= |d|
    ensures |Part(x, d, base, count)| <= n
    ensures Encode(Part(x, d, base, count), n)
         == if base <= k < base + count then Encode(Multiplied(Rotated(x, k - base), d[k]), n) else Zero(n)
  {
    hide Rotated, Multiplied, Added, NullsafeAdded, Encode, Zero;
    if count == 0 {
      EncodeNone(n);
    } else {
      OnePartProduct(x, d, base, count - 1, k, n);
      var j := base + count - 1;
      var part, product := Part(x, d, base, count - 1), Multiplied(Rotated(x, count - 1), d[j]);
      NullsafeIsAdded(part, product);
      EncodeBlank(part, n);
      if j != k { BlankProduct(Rotated(x, count - 1), |d[j]|); }
      BlankSum(part, product, n);
    }
  }

  lemma EncodeNone(n: nat)
    ensures Encode([], n) == Zero(n)
  {}

  /** So does the whole transform. */
  lemma {:induction false} OneStep(x: Vec, d: LT.Diagonals, bstep: nat, k: nat, at: nat, g: nat, n: nat, y: Vec)
    requires |x| <= n && bstep > 0 && k < |d| && BlankBut(d, k) && g <= Steps(|d|, bstep)
    requires Base(at, bstep) <= k < Base(at, bstep) + bstep
    requires y == Rotated(PartOf(x, d, bstep, Base(at, bstep)), Base(at, bstep)) && |y| <= n
    ensures Base(g, bstep) <= |d| + bstep && |Transformed(x, d, bstep, g)| <= n
    ensures Encode(Transformed(x, d, bstep, g), n) == if g <= at then Zero(n) else Encode(y, n)
  {
    hide Part, Rotated, Base, Encode, Zero, Longest, Added, Lengths, Blank;
    BaseMonotone(g, Steps(|d|, bstep), bstep);
    TransformedLength(x, d, bstep, g);
    if g == 0 {
      EncodeNone(n);
    } else {
      OneStep(x, d, bstep, k, at, g - 1, n, y);
      BaseBefore(g, bstep);
      BelowSteps(|d|, bstep, g - 1);
      TransformedStep(x, d, bstep, g);
      hide Transformed;
      var base := Base(g - 1, bstep);
      OtherStep(bstep, k, at, g - 1);
      OneStepPart(x, d, bstep, k, base, n);
      EncodeBlank(Transformed(x, d, bstep, g - 1), n);
      BlankSum(Transformed(x, d, bstep, g - 1), Rotated(PartOf(x, d, bstep, base), base), n);
    }
  }

  lemma OtherStep(bstep: nat, k: nat, at: nat, g: nat)
    requires Base(at, bstep) <= k < Base(at, bstep) + bstep
    ensures Base(g, bstep) <= k < Base(g, bstep) + bstep ==> g == at
  {
    if g < at {
      BaseMonotone(g + 1, at, bstep);
      BaseBefore(g + 1, bstep);
    } else if at < g {
      BaseMonotone(at + 1, g, bstep);
      BaseBefore(at + 1, bstep);
    }
  }

  /** A rotated giant step is blank unless its diagonal is in it. */
  lemma OneStepPart(x: Vec, d: LT.Diagonals, bstep: nat, k: nat, base: nat, n: nat)
    requires |x| <= n && bstep > 0 && k < |d| && BlankBut(d, k) && base < |d|
    ensures |PartOf(x, d, bstep, base)| <= n
    ensures !(base <= k < base + bstep) ==> Blank(Rotated(PartOf(x, d, bstep, base), base))
  {
    hide Part, Rotated, Blank, Multiplied;
    var part := PartOf(x, d, bstep, base);
    OnePartProduct(x, d, base, Smaller(bstep, |d| - base), k, n);
    EncodeBlank(part, n);
    RotatedIsRotate(part, base);
    RotateBlank(part, base);
  }

  lemma FheTerm(x: Vec, d: LT.Diagonals, bstep: nat, base: nat, k: nat)
    requires bstep > 0 && LT.Encodable(d, |x|) && LT.IsBase(base, bstep) && base <= k < base + bstep && k < |d|
    ensures LT.Term(x, d, bstep, k) == Rotate(Times(Rotate(x, k - base), Encode(d[k], |x|)), base)
  {
    hide Rotate, Times, Encode, LT.IsBase;
    LT.InGiantStep(base, bstep, k - base);
  }

  lemma OneFheTerm(x: Vec, d: LT.Diagonals, bstep: nat, base: nat, k: nat)
    requires bstep > 0 && LT.Encodable(d, |x|) && BlankBut(d, k)
    requires LT.IsBase(base, bstep) && base <= k < base + bstep && k < |d|
    ensures LT.TermSum(x, d, bstep, 0, |d|) == Rotate(Times(Rotate(x, k - base), Encode(d[k], |x|)), base)
  {
    OneTerm(x, d, bstep, k, |d|);
    FheTerm(x, d, bstep, base, k);
    hide *;
  }

  lemma OnePlainStep(x: Vec, d: LT.Diagonals, bstep: nat, base: nat, k: nat, n: nat)
    requires |x| <= n && bstep > 0 && BlankBut(d, k)
    requires LT.IsBase(base, bstep) && base <= k < base + bstep && k < |d|
    ensures |PartOf(x, d, bstep, base)| <= n && |Transformed(x, d, bstep, Steps(|d|, bstep))| <= n
    ensures Encode(Transformed(x, d, bstep, Steps(|d|, bstep)), n)
         == Encode(Rotated(PartOf(x, d, bstep, base), base), n)
  {
    hide PartOf, Rotated, Encode, Transformed, BlankBut;
    var at := BaseNumber(base, bstep);
    StepOfBase(|d|, bstep, at);
    hide Base, LT.IsBase;
    OneStepPart(x, d, bstep, k, base, n);
    OneStep(x, d, bstep, k, at, Steps(|d|, bstep), n, Rotated(PartOf(x, d, bstep, base), base));
  }

  lemma BaseNumber(base: nat, bstep: nat) returns (at: nat)
    requires bstep > 0 && LT.IsBase(base, bstep)
    ensures base == Base(at, bstep)
  {
    at := base / bstep;
  }

  /** With one diagonal that is not blank, both transforms come down to its product. */
  lemma OneDiagonal(x: Vec, d: LT.Diagonals, bstep: nat, base: nat, k: nat, n: nat)
    requires |x| <= n && bstep > 0 && LT.Encodable(d, n) && BlankBut(d, k)
    requires LT.IsBase(base, bstep) && base <= k < base + bstep && k < |d|
    ensures var part, product := PartOf(x, d, bstep, base), Multiplied(Rotated(x, k - base), d[k]);
      && |part| <= n
      && Encode(part, n) == Encode(product, n)
      && SameTransform(x, d, bstep, n)
         == (Encode(Rotated(part, base), n) == Rotate(Times(Rotate(Encode(x, n), k - base), Encode(d[k], n)), base))
  {
    hide Part, Rotated, Rotate, Times, Encode, Transformed, Multiplied, LT.TermSum, LT.IsBase, BlankBut;
    OnePartProduct(x, d, base, Smaller(bstep, |d| - base), k, n);
    hide LT.Encodable, PartOf;
    OnePlainStep(x, d, bstep, base, k, n);
    OneFheTerm(Encode(x, n), d, bstep, base, k);
  }

  lemma StepOfBase(count: nat, bstep: nat, at: nat)
    requires bstep > 0 && Base(at, bstep) < count
    ensures at < Steps(count, bstep)
  {
    if at >= Steps(count, bstep) { BaseMonotone(Steps(count, bstep), at, bstep); }
  }

  // ----- a product of slots that move -----

  /** A slot that the baby rotation does not keep shows in one of the two products only. */
  lemma SpoiledProduct(m: nat, b: nat, l: nat, n: nat, i: nat)
    requires m <= n && l <= n && i < l && !SlotKept(m, b, n, i)
    ensures var x, v := Spoiler(m, b, n, i), Unit(l, i);
      Blank(Multiplied(Rotated(x, b), v)) <==> !Blank(Times(Rotate(Encode(x, n), b), Encode(v, n)))
  {
    hide Rotated, Rotate, Multiplied, Times, Encode, Unit, Spoiler, SlotKept;
    var x, v := Spoiler(m, b, n, i), Unit(l, i);
    SpoilerAt(m, b, n, i);
    PlainSpoiled(Rotated(x, b), l, i);
    FheSpoiled(Rotate(Encode(x, n), b), l, i);
  }

  lemma PlainSpoiled(a: Vec, l: nat, i: nat)
    requires i < l
    ensures Blank(Multiplied(a, Unit(l, i))) <==> At(a, i) == 0.0
  {
    var product := Multiplied(a, Unit(l, i));
    forall j | 0 <= j < |product| ensures product[j] == if j == i then a[i] else 0.0 {
      MultipliedSlot(a, Unit(l, i), j);
    }
    if i < |a| { assert product[i] == a[i]; }
  }

  lemma FheSpoiled(a: Vec, l: nat, i: nat)
    requires i < l <= |a|
    ensures Blank(Times(a, Encode(Unit(l, i), |a|))) <==> a[i] == 0.0
  {
    var v := Encode(Unit(l, i), |a|);
    forall j | 0 <= j < |a| ensures Times(a, v)[j] == if j == i then a[i] else 0.0 {
      TimesSlot(a, v, j);
      EncodeAt(Unit(l, i), |a|, j);
    }
    assert Times(a, v)[i] == a[i];
  }

  lemma BabyDiffers(m: nat, d: LT.Diagonals, bstep: nat, n: nat, base: nat, k: nat, i: nat)
    requires n > 0 && bstep > 0 && m <= n && LT.IsBase(base, bstep) && base <= k < base + bstep && k < |d|
    requires LT.Encodable(d, n) && BlankBut(d, k) && i < |d[k]| && d[k] == Unit(|d[k]|, i)
    requires i < n && !SlotKept(m, k - base, n, i)
    ensures !SameTransform(Spoiler(m, k - base, n, i), d, bstep, n)
  {
    assert |d[k]| <= n;
    hide *;
    var b, v := k - base, d[k];
    var x := Spoiler(m, b, n, i);
    SpoiledProduct(m, b, |v|, n, i);
    OneDiagonal(x, d, bstep, base, k, n);
    BlanksDiffer(PartOf(x, d, bstep, base), Multiplied(Rotated(x, b), v),
                 Times(Rotate(Encode(x, n), b), Encode(v, n)), base, n);
  }

  lemma BabyBreaks(m: nat, lens: seq<nat>, bstep: nat, n: nat, k: nat, i: nat) returns (x: Vec, d: LT.Diagonals)
    requires n > 0 && bstep > 0 && m <= n && k < |lens| && i < lens[k] <= n
    requires (forall j :: 0 <= j < |lens| ==> lens[j] <= n) && !SlotKept(m, k % bstep, n, i)
    ensures |x| == m && Lengths(d) == lens && LT.Encodable(d, n) && !SameTransform(x, d, bstep, n)
  {
    var base := BaseOf(k, bstep);
    x, d := Spoiler(m, k - base, n, i), OnlyAt(lens, k, Unit(lens[k], i));
    EncodableLengths(d, lens, n);
    hide *;
    BabyDiffers(m, d, bstep, n, base, k, i);
  }

  lemma BaseOf(k: nat, bstep: nat) returns (base: nat)
    requires bstep > 0
    ensures LT.IsBase(base, bstep) && base <= k < base + bstep && k - base == k % bstep
  {
    base := k - k % bstep;
    DivModUnique(base, k / bstep, 0, bstep);
  }

  lemma EncodableLengths(d: LT.Diagonals, lens: seq<nat>, n: nat)
    requires Lengths(d) == lens && forall j :: 0 <= j < |lens| ==> lens[j] <= n
    ensures LT.Encodable(d, n)
  {
    forall k | 0 <= k < |d| ensures |d[k]| <= n {
      assert Lengths(d)[k] == |d[k]|;
    }
  }

  lemma BlanksDiffer(part: Vec, product: Vec, sent: Vec, base: nat, n: nat)
    requires |part| <= n && |product| <= n && |sent| == n && Encode(part, n) == Encode(product, n)
    requires Blank(product) <==> !Blank(sent)
    ensures Encode(Rotated(part, base), n) != Rotate(sent, base)
  {
    hide Rotated, Rotate, Encode;
    EncodeBlank(part, n);
    EncodeBlank(product, n);
    RotatedIsRotate(part, base);
    RotateBlank(part, base);
    RotateBlank(sent, base);
    EncodeBlank(Rotated(part, base), n);
  }

  // ----- a giant rotation of a short part -----

  lemma {:induction false} LongestIs(lens: seq<nat>, base: nat, count: nat) returns (b: nat)
    requires base + count <= |lens| && count > 0
    ensures b < count && lens[base + b] == Longest(lens, base, count)
  {
    b := count - 1;
    if lens[base + b] < Longest(lens, base, count - 1) {
      if count > 1 { b := LongestIs(lens, base, count - 1); }
    }
  }

  function Ones(m: nat): (r: Vec)
    ensures |r| == m
  {
    seq(m, _ => 1.0)
  }

  lemma OnesTimes(m: nat, b: nat, a: Vec, l: nat)
    requires |a| == Smaller(m, l)
    ensures Multiplied(Rotated(Ones(m), b), a + Zero(l - |a|)) == a
  {
    hide Rotated;
    var v := a + Zero(l - |a|);
    var product := Multiplied(Rotated(Ones(m), b), v);
    forall j | 0 <= j < |a| ensures product[j] == a[j] {
      RotatedAt(Ones(m), b, j);
      MultipliedSlot(Rotated(Ones(m), b), v, j);
    }
  }

  lemma GiantBreaks(m: nat, lens: seq<nat>, bstep: nat, n: nat, base: nat) returns (x: Vec, d: LT.Diagonals)
    requires n > 0 && bstep > 0 && m <= n && BabiesKept(m, lens, bstep, n) && base < |lens|
    requires LT.IsBase(base, bstep) && !RotationKept(StepLength(m, lens, bstep, base), base, n)
    requires forall j :: 0 <= j < |lens| ==> lens[j] <= n
    ensures |x| == m && Lengths(d) == lens && LT.Encodable(d, n) && !SameTransform(x, d, bstep, n)
  {
    hide BabiesKept, RotationKept, LT.IsBase, Longest, Rotate, Rotated, Encode, Multiplied, Times, OnlyAt, Ones, Part;
    hide SameTransform, Lengths, LT.Encodable, BlankBut;
    var count := Smaller(bstep, |lens| - base);
    var b := LongestIs(lens, base, count);
    var k := base + b;
    var a := RotationSpoiler(StepLength(m, lens, bstep, base), base, n);
    x, d := Ones(m), OnlyAt(lens, k, a + Zero(lens[k] - |a|));
    BabyPads(m, x, d[k], lens, bstep, n, base, b);
    OneLength(m, d, lens, bstep, base);
    EncodableLengths(d, lens, n);
    OnesTimes(m, b, a, lens[k]);
    GiantDiffers(x, d, bstep, n, base, k, a);
  }

  lemma BabyPads(m: nat, x: Vec, v: Vec, lens: seq<nat>, bstep: nat, n: nat, base: nat, b: nat)
    requires |x| == m && n > 0 && bstep > 0 && BabiesKept(m, lens, bstep, n) && base + b < |lens|
    requires LT.IsBase(base, bstep) && b < bstep && |x| <= n && |v| == lens[base + b] <= n
    ensures Encode(Multiplied(Rotated(x, b), v), n) == Times(Rotate(Encode(x, n), b), Encode(v, n))
  {
    hide Kept, LT.IsBase, Rotated, Rotate, Multiplied, Times, Encode;
    LT.InGiantStep(base, bstep, b);
    var k := base + b;
    assert Kept(|x|, k % bstep, n, lens[k]);
    ProductPads(x, b, v, n);
  }

  lemma OneLength(m: nat, d: LT.Diagonals, lens: seq<nat>, bstep: nat, base: nat)
    requires bstep > 0 && Lengths(d) == lens && base < |lens|
    ensures |PartOf(Ones(m), d, bstep, base)| == StepLength(m, lens, bstep, base)
  {
    hide Part, Longest, Lengths, Ones;
    PartLength(Ones(m), d, base, Smaller(bstep, |lens| - base));
  }

  lemma RotationSpoiler(p: nat, k: int, n: nat) returns (a: Vec)
    requires n > 0 && p <= n && !RotationKept(p, k, n)
    ensures |a| == p && Encode(Rotated(a, k), n) != Rotate(Encode(a, n), k)
  {
    hide Encode, Rotate, Rotated, RotationKept;
    RotationExact(p, k, n);
    a :| |a| == p && Encode(Rotated(a, k), n) != Rotate(Encode(a, n), k);
  }

  lemma GiantDiffers(x: Vec, d: LT.Diagonals, bstep: nat, n: nat, base: nat, k: nat, a: Vec)
    requires n > 0 && bstep > 0 && |x| <= n && LT.IsBase(base, bstep) && base <= k < base + bstep && k < |d|
    requires LT.Encodable(d, n) && BlankBut(d, k) && Multiplied(Rotated(x, k - base), d[k]) == a
    requires |PartOf(x, d, bstep, base)| == |a| <= n && |d[k]| <= n
    requires Times(Rotate(Encode(x, n), k - base), Encode(d[k], n)) == Encode(a, n)
    requires Encode(Rotated(a, base), n) != Rotate(Encode(a, n), base)
    ensures !SameTransform(x, d, bstep, n)
  {
    hide *;
    OneDiagonal(x, d, bstep, base, k, n);
    SameVector(PartOf(x, d, bstep, base), a, n);
  }

  lemma SameVector(a: Vec, b: Vec, n: nat)
    requires |a| == |b| <= n && Encode(a, n) == Encode(b, n)
    ensures a == b
  {
    assert a == Encode(a, n)[..|a|] && b == Encode(b, n)[..|b|];
  }

  /** For given lengths of the input and of the diagonals, the twin's transform is the
      encrypted one on all values exactly when the lengths are kept. */
  lemma TransformExact(m: nat, lens: seq<nat>, bstep: nat, n: nat)
    requires n > 0 && bstep > 0 && m <= n && forall k :: 0 <= k < |lens| ==> lens[k] <= n
    ensures TransformKept(m, lens, bstep, n)
       <==> forall x: Vec, d: LT.Diagonals ::
              |x| == m && LT.Encodable(d, n) && Lengths(d) == lens ==> SameTransform(x, d, bstep, n)
  {
    hide SameTransform, LT.Encodable, Lengths, SlotKept, RotationKept, StepLength, LT.IsBase;
    if TransformKept(m, lens, bstep, n) {
      forall x: Vec, d: LT.Diagonals | |x| == m && LT.Encodable(d, n) && Lengths(d) == lens
        ensures SameTransform(x, d, bstep, n)
      {
        TransformPads(x, d, bstep, n);
      }
    } else if !BabiesKept(m, lens, bstep, n) {
      var k: nat :| k < |lens| && !Kept(m, k % bstep, n, lens[k]);
      var i: nat :| i < lens[k] && !SlotKept(m, k % bstep, n, i);
      var x, d := BabyBreaks(m, lens, bstep, n, k, i);
    } else {
      var base: nat :| base < |lens| && LT.IsBase(base, bstep)
        && !RotationKept(StepLength(m, lens, bstep, base), base, n);
      var x, d := GiantBreaks(m, lens, bstep, n, base);
    }
  }
}
