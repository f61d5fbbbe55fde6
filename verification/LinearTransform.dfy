/** The diagonal product the compiler emits for linear_transform, in every form:
    the plain loop, the chained (Horner) form, its batched variant, several sets
    sharing their baby rotations, and the chunks a memory budget splits it into. */
module LinearTransform {
  import opened Slots

  type Diagonals = seq<Vec>

  /** What the encoder needs of a diagonal set for an n-slot ciphertext. */
  predicate Encodable(d: Diagonals, n: nat) {
    forall k :: 0 <= k < |d| ==> |d[k]| <= n
  }

  function Min(a: int, b: int): int {
    if a < b then a else b
  }

  function Max(a: int, b: int): int {
    if a < b then b else a
  }

  // ----- the simple sum -----

  /** Diagonal k's contribution: Rot(Rot(x, k mod bstep) * d[k], bstep * (k div bstep)). */
  function Term(x: Vec, d: Diagonals, bstep: nat, k: nat): (r: Vec)
    requires 0 < bstep && Encodable(d, |x|) && k < |d|
    ensures |r| == |x|
  {
    RotatedProduct(x, d[k], k % bstep, bstep * (k / bstep))
  }

  function RotatedProduct(x: Vec, v: Vec, baby: nat, giant: nat): (r: Vec)
    requires |v| <= |x|
    ensures |r| == |x|
  {
    Rotate(Times(Rotate(x, baby), Encode(v, |x|)), giant)
  }

  /** The contributions of diagonals lo .. hi - 1. */
  function TermSum(x: Vec, d: Diagonals, bstep: nat, lo: nat, hi: nat): (r: Vec)
    requires 0 < bstep && Encodable(d, |x|) && hi <= |d|
    ensures |r| == |x|
    decreases hi
  {
    if hi <= lo then Zero(|x|) else Plus(TermSum(x, d, bstep, lo, hi - 1), Term(x, d, bstep, hi - 1))
  }

  /** The whole product; an empty set of diagonals leaves the null ciphertext. */
  function Product(x: Vec, d: Diagonals, bstep: nat): (r: Ct)
    requires 0 < bstep && Encodable(d, |x|)
  {
    if |d| == 0 then None else Some(TermSum(x, d, bstep, 0, |d|))
  }

  lemma {:induction false} TermSumSplit(x: Vec, d: Diagonals, bstep: nat, lo: nat, mid: nat, hi: nat)
    requires 0 < bstep && Encodable(d, |x|) && lo <= mid <= hi <= |d|
    ensures TermSum(x, d, bstep, lo, hi) == Plus(TermSum(x, d, bstep, lo, mid), TermSum(x, d, bstep, mid, hi))
    decreases hi
  {
    if mid == hi {
      PlusZero(TermSum(x, d, bstep, lo, mid));
    } else {
      TermSumSplit(x, d, bstep, lo, mid, hi - 1);
      PlusAssociates(TermSum(x, d, bstep, lo, mid), TermSum(x, d, bstep, mid, hi - 1), Term(x, d, bstep, hi - 1));
    }
  }

  lemma EmptySum(x: Vec, d: Diagonals, bstep: nat)
    requires 0 < bstep && Encodable(d, |x|)
    ensures TermSum(x, d, bstep, |d|, |d|) == Zero(|x|)
  {}

  // ----- what a slot of the product holds -----

  /** Sum over k < hi of x[(i + k) mod n] * d[k][(i + shift of k) mod n]. */
  function SlotSum(x: Vec, d: Diagonals, bstep: nat, i: nat, hi: nat): real
    requires 0 < bstep && Encodable(d, |x|) && hi <= |d| && i < |x|
  {
    if hi == 0 then 0.0 else SlotSum(x, d, bstep, i, hi - 1) + SlotTerm(x, d, bstep, i, hi - 1)
  }

  function SlotTerm(x: Vec, d: Diagonals, bstep: nat, i: nat, k: nat): real
    requires 0 < bstep && Encodable(d, |x|) && k < |d| && i < |x|
  {
    x[(i + k) % |x|] * Encode(d[k], |x|)[(i + bstep * (k / bstep)) % |x|]
  }

  lemma RotatedProductSlot(x: Vec, v: Vec, baby: nat, giant: nat, k: nat, i: nat)
    requires |v| <= |x| && i < |x| && giant + baby == k
    ensures RotatedProduct(x, v, baby, giant)[i] == x[(i + k) % |x|] * Encode(v, |x|)[(i + giant) % |x|]
  {
    hide Rotate, Times, Encode;
    var n, at := |x|, (i + giant) % |x|;
    RotateSlot(Times(Rotate(x, baby), Encode(v, n)), giant, i);
    TimesSlot(Rotate(x, baby), Encode(v, n), at);
    RotateSlot(x, baby, at);
    ModPlus(i + giant, baby, n);
  }

  lemma GiantPlusBaby(k: nat, bstep: nat)
    requires 0 < bstep
    ensures bstep * (k / bstep) + k % bstep == k
  {}

  lemma TermSlot(x: Vec, d: Diagonals, bstep: nat, k: nat, i: nat)
    requires 0 < bstep && Encodable(d, |x|) && k < |d| && i < |x|
    ensures Term(x, d, bstep, k)[i] == SlotTerm(x, d, bstep, i, k)
  {
    hide RotatedProduct, Encode;
    GiantPlusBaby(k, bstep);
    RotatedProductSlot(x, d[k], k % bstep, bstep * (k / bstep), k, i);
  }

  lemma {:induction false} ProductSlot(x: Vec, d: Diagonals, bstep: nat, i: nat, hi: nat)
    requires 0 < bstep && Encodable(d, |x|) && hi <= |d| && i < |x|
    ensures TermSum(x, d, bstep, 0, hi)[i] == SlotSum(x, d, bstep, i, hi)
  {
    if hi > 0 {
      ProductSlot(x, d, bstep, i, hi - 1);
      TermSlot(x, d, bstep, hi - 1, i);
      PlusSlot(TermSum(x, d, bstep, 0, hi - 1), Term(x, d, bstep, hi - 1), i);
    }
  }

  // ----- one giant step -----

  /** The giant step whose first diagonal is base, before its rotation:
      sum over b < m of Rot(x, b) * d[base + b]. */
  function PartSum(x: Vec, d: Diagonals, base: nat, m: nat): (r: Vec)
    requires Encodable(d, |x|) && base + m <= |d|
    ensures |r| == |x|
  {
    if m == 0 then Zero(|x|)
    else Plus(PartSum(x, d, base, m - 1), Times(Rotate(x, m - 1), Encode(d[base + m - 1], |x|)))
  }

  /** base is the first diagonal of a giant step. */
  predicate IsBase(base: nat, bstep: nat)
    requires 0 < bstep
  {
    base % bstep == 0
  }

  lemma FirstBase(bstep: nat)
    requires 0 < bstep
    ensures IsBase(0, bstep)
  {}

  lemma NextBase(base: nat, bstep: nat)
    requires 0 < bstep && IsBase(base, bstep)
    ensures IsBase(base + bstep, bstep)
  {
    DivModUnique(base + bstep, base / bstep + 1, 0, bstep);
  }

  lemma InGiantStep(base: nat, bstep: nat, b: nat)
    requires 0 < bstep && IsBase(base, bstep) && b < bstep
    ensures (base + b) % bstep == b && bstep * ((base + b) / bstep) == base
  {
    var g := base / bstep;
    assert base == g * bstep;
    DivModUnique(base + b, g, b, bstep);
  }

  lemma TermInGiantStep(x: Vec, d: Diagonals, bstep: nat, base: nat, b: nat)
    requires 0 < bstep && Encodable(d, |x|) && IsBase(base, bstep) && b < bstep && base + b < |d|
    ensures Term(x, d, bstep, base + b) == RotatedProduct(x, d[base + b], b, base)
  {
    hide RotatedProduct, IsBase;
    InGiantStep(base, bstep, b);
  }

  lemma {:induction false} RotatedPart(x: Vec, d: Diagonals, bstep: nat, base: nat, m: nat)
    requires 0 < bstep && Encodable(d, |x|) && IsBase(base, bstep) && m <= bstep && base + m <= |d|
    ensures Rotate(PartSum(x, d, base, m), base) == TermSum(x, d, bstep, base, base + m)
  {
    hide IsBase, Term;
    if m == 0 {
      RotateZeros(|x|, base);
    } else {
      RotatedPart(x, d, bstep, base, m - 1);
      TermInGiantStep(x, d, bstep, base, m - 1);
      RotatePlus(PartSum(x, d, base, m - 1), Times(Rotate(x, m - 1), Encode(d[base + m - 1], |x|)), base);
    }
  }

  /** The unrotated giant steps from diagonal base on. */
  function GiantSteps(x: Vec, d: Diagonals, bstep: nat, base: nat): (r: seq<Vec>)
    requires 0 < bstep && Encodable(d, |x|)
    ensures forall part :: part in r ==> |part| == |x|
    decreases |d| - base
  {
    if |d| <= base then []
    else [PartSum(x, d, base, Min(bstep, |d| - base))] + GiantSteps(x, d, bstep, base + bstep)
  }

  // ----- Horner over the giant steps -----

  /** y = Rot(y, bstep) + part, from the last part to the first. */
  function Horner(parts: seq<Vec>, n: nat, bstep: nat): (r: Vec)
    requires forall part :: part in parts ==> |part| == n
    ensures |r| == n
  {
    if |parts| == 0 then Zero(n) else Plus(Rotate(Horner(parts[1..], n, bstep), bstep), parts[0])
  }

  lemma HornerCons(part: Vec, rest: seq<Vec>, n: nat, bstep: nat)
    requires |part| == n && forall p :: p in rest ==> |p| == n
    ensures Horner([part] + rest, n, bstep) == Plus(Rotate(Horner(rest, n, bstep), bstep), part)
  {
    assert ([part] + rest)[1..] == rest;
  }

  lemma HornerStep(h: Vec, part: Vec, x: Vec, d: Diagonals, bstep: nat, lo: nat, mid: nat)
    requires 0 < bstep && Encodable(d, |x|) && lo <= mid <= |d| && |h| == |part| == |x|
    requires Rotate(h, lo + bstep) == TermSum(x, d, bstep, mid, |d|)
    requires Rotate(part, lo) == TermSum(x, d, bstep, lo, mid)
    ensures Rotate(Plus(Rotate(h, bstep), part), lo) == TermSum(x, d, bstep, lo, |d|)
  {
    RotatePlus(Rotate(h, bstep), part, lo);
    RotateRotate(h, bstep, lo);
    PlusCommutes(TermSum(x, d, bstep, mid, |d|), TermSum(x, d, bstep, lo, mid));
    TermSumSplit(x, d, bstep, lo, mid, |d|);
  }

  /** The sum of the giant steps from base on, before the first one's rotation. */
  ghost predicate HornerSumsFrom(x: Vec, d: Diagonals, bstep: nat, base: nat)
    requires 0 < bstep && Encodable(d, |x|)
  {
    Rotate(Horner(GiantSteps(x, d, bstep, base), |x|, bstep), base) == TermSum(x, d, bstep, Min(base, |d|), |d|)
  }

  lemma NoGiantSteps(x: Vec, d: Diagonals, bstep: nat, base: nat)
    requires 0 < bstep && Encodable(d, |x|) && |d| <= base
    ensures HornerSumsFrom(x, d, bstep, base)
  {
    RotateZeros(|x|, base);
    EmptySum(x, d, bstep);
  }

  lemma OneMoreGiantStep(x: Vec, d: Diagonals, bstep: nat, base: nat)
    requires 0 < bstep && Encodable(d, |x|) && IsBase(base, bstep) && base < |d|
    requires HornerSumsFrom(x, d, bstep, base + bstep)
    ensures HornerSumsFrom(x, d, bstep, base)
  {
    hide Rotate, Plus, PartSum, TermSum, IsBase, Encodable;
    var m := Min(bstep, |d| - base);
    var part, rest := PartSum(x, d, base, m), GiantSteps(x, d, bstep, base + bstep);
    RotatedPart(x, d, bstep, base, m);
    HornerCons(part, rest, |x|, bstep);
    HornerStep(Horner(rest, |x|, bstep), part, x, d, bstep, base, base + m);
  }

  lemma {:induction false} HornerIsTheSum(x: Vec, d: Diagonals, bstep: nat, base: nat)
    requires 0 < bstep && Encodable(d, |x|) && IsBase(base, bstep)
    ensures HornerSumsFrom(x, d, bstep, base)
    decreases |d| - base
  {
    hide HornerSumsFrom, IsBase;
    if |d| <= base {
      NoGiantSteps(x, d, bstep, base);
    } else {
      NextBase(base, bstep);
      HornerIsTheSum(x, d, bstep, base + bstep);
      OneMoreGiantStep(x, d, bstep, base);
    }
  }

  // ----- the emitted helpers -----

  /** cc->EvalAdd behind the helpers' null test: `y ? EvalAdd(y, t) : t`. */
  function AddTo(y: Ct, t: Vec): (r: Ct)
    requires y.Some? ==> |y.value| == |t|
  {
    if y.Some? then Some(Plus(y.value, t)) else Some(t)
  }

  ghost predicate IsBaby(baby: seq<Vec>, x: Vec, n: nat) {
    |baby| == n && forall b :: 0 <= b < n ==> baby[b] == Rotate(x, b)
  }

  method BabyRotations(ct: Vec, n: nat, chained: bool) returns (baby: seq<Vec>)
    ensures IsBaby(baby, ct, n)
  {
    hide Rotate;
    baby := [];
    for b := 0 to n
      invariant IsBaby(baby, ct, b)
    {
      RotateZero(ct);
      if chained && b > 0 {
        RotateRotate(ct, b - 1, 1);
        baby := baby + [Rotate(baby[b - 1], 1)];
      } else {
        baby := baby + [if b == 0 then ct else Rotate(ct, b)];
      }
    }
  }

  /** One giant step, its diagonals encoded one at a time. */
  method GiantStepOnHost(ghost x: Vec, slots: nat, baby: seq<Vec>, d: Diagonals, bstep: nat, base: nat)
    returns (part: Ct)
    requires 0 < bstep && slots == |x| && Encodable(d, |x|) && base < |d|
    requires IsBaby(baby, x, |baby|) && Min(bstep, |d|) <= |baby|
    ensures part == Some(PartSum(x, d, base, Min(bstep, |d| - base)))
  {
    hide Plus, Times, Rotate, Encode;
    part := None;
    var b := 0;
    while b < bstep && base + b < |d|
      invariant 0 <= b <= Min(bstep, |d| - base)
      invariant part == if b == 0 then None else Some(PartSum(x, d, base, b))
    {
      var term := Times(baby[b], Encode(d[base + b], slots));
      PlusZero(term);
      part := AddTo(part, term);
      b := b + 1;
    }
  }

  /** One giant step, its diagonals encoded nb at a time. */
  method GiantStepBatched(ghost x: Vec, slots: nat, baby: seq<Vec>, d: Diagonals, bstep: nat, base: nat, nb: nat)
    returns (part: Ct)
    requires 0 < bstep && slots == |x| && Encodable(d, |x|) && base < |d| && 0 < nb
    requires IsBaby(baby, x, |baby|) && Min(bstep, |d|) <= |baby|
    ensures part == Some(PartSum(x, d, base, Min(bstep, |d| - base)))
  {
    hide Plus, Times, Rotate, Encode;
    part := None;
    var n := Min(bstep, |d| - base);
    var b0 := 0;
    while b0 < n
      invariant 0 <= b0
      invariant part == if b0 == 0 then None else Some(PartSum(x, d, base, Min(b0, n)))
    {
      var m := Min(nb, n - b0);
      var batch := d[base + b0..base + b0 + m];
      var b := 0;
      while b < m
        invariant 0 <= b <= m
        invariant part == if b0 + b == 0 then None else Some(PartSum(x, d, base, b0 + b))
      {
        assert batch[b] == d[base + (b0 + b)];
        var term := Times(baby[b0 + b], Encode(batch[b], slots));
        PlusZero(term);
        part := AddTo(part, term);
        b := b + 1;
      }
      b0 := b0 + nb;
    }
  }

  /** nb_lt_batch: a size of 0 or less, or more than bstep, is a whole giant step. */
  function BatchSize(v: int, bstep: nat): (nb: nat)
    requires 0 < bstep
    ensures 0 < nb <= bstep
    ensures nb == v || (nb == bstep && !(0 < v <= bstep))
  {
    if v <= 0 || v > bstep then bstep else v
  }

  /** nb_linear_transform_from when the scheme does not chain its rotations;
      base is g * bstep. */
  method TransformFrom(ghost x: Vec, slots: nat, baby: seq<Vec>, d: Diagonals, bstep: nat) returns (y: Ct)
    requires 0 < bstep && slots == |x| && Encodable(d, |x|)
    requires IsBaby(baby, x, |baby|) && Min(bstep, |d|) <= |baby|
    ensures y == Product(x, d, bstep)
  {
    hide Rotate, Plus, PartSum, TermSum, IsBaby, IsBase;
    FirstBase(bstep);
    y := None;
    var g, base := 0, 0;
    while base < |d|
      invariant 0 <= g && 0 <= base && IsBase(base, bstep) && (g == 0 <==> base == 0) && (base > 0 ==> |d| > 0)
      invariant y == if g == 0 then None else Some(TermSum(x, d, bstep, 0, Min(base, |d|)))
    {
      var step := GiantStepOnHost(x, slots, baby, d, bstep, base);
      var part := step.value;
      ghost var m := Min(bstep, |d| - base);
      RotatedPart(x, d, bstep, base, m);
      TermSumSplit(x, d, bstep, 0, base, base + m);
      RotateZero(part);
      PlusZero(part);
      if g > 0 {
        part := Rotate(part, base);
      }
      y := AddTo(y, part);
      NextBase(base, bstep);
      g, base := g + 1, base + bstep;
    }
  }

  /** The chained form's first loop: every giant step's part, unrotated. batch is
      None on the host path. */
  method CollectParts(ghost x: Vec, slots: nat, baby: seq<Vec>, d: Diagonals, bstep: nat, batch: Option<int>)
    returns (parts: seq<Vec>)
    requires 0 < bstep && slots == |x| && Encodable(d, |x|)
    requires IsBaby(baby, x, |baby|) && Min(bstep, |d|) <= |baby|
    ensures parts == GiantSteps(x, d, bstep, 0)
  {
    hide PartSum, IsBaby;
    parts := [];
    var base := 0;
    while base < |d|
      invariant 0 <= base && parts + GiantSteps(x, d, bstep, base) == GiantSteps(x, d, bstep, 0)
    {
      var part;
      if batch.Some? {
        part := GiantStepBatched(x, slots, baby, d, bstep, base, BatchSize(batch.value, bstep));
      } else {
        part := GiantStepOnHost(x, slots, baby, d, bstep, base);
      }
      ghost var rest := GiantSteps(x, d, bstep, base + bstep);
      assert parts + [part.value] + rest == parts + ([part.value] + rest);
      parts := parts + [part.value];
      base := base + bstep;
    }
  }

  /** Its second loop: Horner over the parts, from the last one down. */
  method HornerOver(parts: seq<Vec>, ghost n: nat, bstep: nat) returns (y: Ct)
    requires forall part :: part in parts ==> |part| == n
    ensures y == if |parts| == 0 then None else Some(Horner(parts, n, bstep))
  {
    hide Rotate, Plus;
    y := None;
    var g := |parts|;
    while g > 0
      invariant 0 <= g <= |parts|
      invariant y == if g == |parts| then None else Some(Horner(parts[g..], n, bstep))
    {
      g := g - 1;
      RotateZeros(n, bstep);
      PlusZero(parts[g]);
      assert parts[g..] == [parts[g]] + parts[g + 1..];
      HornerCons(parts[g], parts[g + 1..], n, bstep);
      y := if y.Some? then Some(Plus(Rotate(y.value, bstep), parts[g])) else Some(parts[g]);
    }
    assert parts[0..] == parts;
  }

  /** nb_linear_transform_from when it does. */
  method TransformFromChained(ghost x: Vec, slots: nat, baby: seq<Vec>, d: Diagonals, bstep: nat, batch: Option<int>)
    returns (y: Ct)
    requires 0 < bstep && slots == |x| && Encodable(d, |x|)
    requires IsBaby(baby, x, |baby|) && Min(bstep, |d|) <= |baby|
    ensures y == Product(x, d, bstep)
  {
    hide IsBaby, Encodable, Horner, Rotate, TermSum, IsBase;
    var parts := CollectParts(x, slots, baby, d, bstep, batch);
    y := HornerOver(parts, |x|, bstep);
    FirstBase(bstep);
    HornerIsTheSum(x, d, bstep, 0);
    RotateZero(Horner(parts, |x|, bstep));
  }

  datatype Mode = Loop | Chained(batch: Option<int>)

  method TransformFromMode(mode: Mode, ghost x: Vec, slots: nat, baby: seq<Vec>, d: Diagonals, bstep: nat)
    returns (y: Ct)
    requires 0 < bstep && slots == |x| && Encodable(d, |x|)
    requires IsBaby(baby, x, |baby|) && Min(bstep, |d|) <= |baby|
    ensures y == Product(x, d, bstep)
  {
    match mode {
      case Loop => y := TransformFrom(x, slots, baby, d, bstep);
      case Chained(batch) => y := TransformFromChained(x, slots, baby, d, bstep, batch);
    }
  }

  /** nb_linear_transform_loop */
  method TransformLoop(mode: Mode, ct: Vec, d: Diagonals, bstep: nat) returns (y: Ct)
    requires 0 < bstep && Encodable(d, |ct|)
    ensures y == Product(ct, d, bstep)
  {
    var baby := BabyRotations(ct, Min(bstep, |d|), mode.Chained?);
    y := TransformFromMode(mode, ct, |ct|, baby, d, bstep);
  }

  /** nb_linear_transforms_loop: the sets share the longest list of baby rotations
      any of them needs, and each still gets its own product. */
  method TransformsLoop(mode: Mode, ct: Vec, sets: seq<Diagonals>, bstep: nat) returns (ys: seq<Ct>)
    requires 0 < bstep && forall d :: d in sets ==> Encodable(d, |ct|)
    ensures |ys| == |sets|
    ensures forall t :: 0 <= t < |sets| ==> ys[t] == Product(ct, sets[t], bstep)
  {
    var n := 0;
    for s := 0 to |sets|
      invariant 0 <= n && forall t :: 0 <= t < s ==> Min(bstep, |sets[t]|) <= n
    {
      n := Max(n, Min(bstep, |sets[s]|));
    }
    var baby := BabyRotations(ct, n, mode.Chained?);
    ys := [];
    for s := 0 to |sets|
      invariant |ys| == s && forall t :: 0 <= t < s ==> ys[t] == Product(ct, sets[t], bstep)
    {
      var y := TransformFromMode(mode, ct, |ct|, baby, sets[s], bstep);
      ys := ys + [y];
    }
  }
}
