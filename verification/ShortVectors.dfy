/** Expressions over a vector that does not fill the slots: on which lengths, rotations
    and numbers the two modes differ for some values. */
module ShortVectors {
  import opened Slots
  import opened PlainSlots
  import opened PaddedSlots
  import opened TwoModes
  import ShortTransforms
  import LT = LinearTransform

  // ----- the product of a ciphertext and a short vector -----

  const PRODUCT := Binary(Mul, Expr.Ct("x"), Expr.Vector("v"))

  /** A world with one variable of each kind. */
  function Sample(n: nat, x: Vec, v: Vec, c: real, d: LT.Diagonals): World {
    World(n, map["x" := Some(x)], map["v" := v], map["c" := c], map["d" := d])
  }

  /** What the plain code computes stands for what the OpenFHE code computes. */
  predicate Agree(e: Expr, w: World) {
    Stands(RunFhe(GenFhe(e), w), RunPlain(GenPlain(e), w), w.n)
  }

  lemma ProductFhe(w: World, x: Vec, v: Vec)
    requires w.cts == map["x" := Some(x)] && w.vectors == map["v" := v] && |x| == w.n && |v| <= w.n
    ensures RunFhe(GenFhe(PRODUCT), w) == Cipher(Times(x, Encode(v, w.n)))
  {
    var fhe := EvalMult(FheVar("x"), PackedPlaintext(FheVector("v")));
    assert GenFhe(PRODUCT) == fhe;
    FheMults(FheVar("x"), PackedPlaintext(FheVector("v")), w);
    assert RunFhe(FheVar("x"), w) == Cipher(x);
    assert RunFhe(FheVector("v"), w) == CppVector(v);
    PackedCall(FheVector("v"), w);
    hide RunFhe, Encode, Times, Elementwise;
    TimesIsMul(x, Encode(v, w.n), Mul);
  }

  lemma ProductPlain(w: World, x: Vec, v: Vec)
    requires w.cts == map["x" := Some(x)] && w.vectors == map["v" := v]
    ensures RunPlain(GenPlain(PRODUCT), w) == PlainValue.Slots(Multiplied(x, v))
  {
    assert GenPlain(PRODUCT) == MulCall(SlotsVar("x"), VectorVar("v"));
    PlainMuls(SlotsVar("x"), VectorVar("v"), w);
    assert RunPlain(SlotsVar("x"), w) == PlainValue.Slots(x) && RunPlain(VectorVar("v"), w) == PlainValue.Slots(v);
    hide RunPlain, Multiplied;
  }

  lemma ProductSound(w: World, x: Vec, v: Vec)
    requires w.n > 0 && w.cts == map["x" := Some(x)] && w.vectors == map["v" := v] && |x| == w.n && |v| <= w.n
    ensures Sound(PRODUCT, w) && Len(PRODUCT, w) == |v| && !RunFhe(GenFhe(PRODUCT), w).Failed?
  {
    ProductFhe(w, x, v);
    ProductOperands(w, x, v);
    hide RunFhe, RunPlain;
  }

  lemma ProductOperands(w: World, x: Vec, v: Vec)
    requires w.cts == map["x" := Some(x)] && w.vectors == map["v" := v]
    ensures RunPlain(GenPlain(Expr.Ct("x")), w).Slots? && RunPlain(GenPlain(Expr.Vector("v")), w).Slots?
  {}

  /** On these expressions `Sound` is just the condition on the lengths. */
  lemma SoundProducts(w: World, x: Vec, v: Vec, k: int, d: string, bstep: nat)
    requires w.n > 0 && w.cts == map["x" := Some(x)] && w.vectors == map["v" := v] && |x| == w.n && |v| <= w.n
    requires d in w.diagonals && bstep > 0 && LT.Encodable(w.diagonals[d], w.n)
    ensures Sound(Expr.Rotated(PRODUCT, k), w) <==> RotationKept(|v|, k, w.n)
    ensures Sound(LinearTransformed(PRODUCT, d, bstep), w) <==>
      TransformKept(|v|, Lengths(w.diagonals[d]), bstep, w.n)
  {
    ProductSound(w, x, v);
    ProductFhe(w, x, v);
    FheRotates(GenFhe(PRODUCT), k, w);
    FheTransforms(GenFhe(PRODUCT), d, bstep, w);
    hide RunFhe, RunPlain, RotationKept, TransformKept, Lengths, LT.Encodable, LT.TermSum, Rotate, Times, Encode;
  }

  /** Multiplying by ones changes nothing, padded or not. */
  lemma OnesProduct(v: Vec, n: nat)
    requires |v| <= n
    ensures Times(ShortTransforms.Ones(n), Encode(v, n)) == Encode(v, n)
    ensures Multiplied(ShortTransforms.Ones(n), v) == v
  {
    hide Times, Multiplied, Encode;
    var ones := ShortTransforms.Ones(n);
    forall i | 0 <= i < n ensures Times(ones, Encode(v, n))[i] == Encode(v, n)[i] {
      TimesSlot(ones, Encode(v, n), i);
    }
    forall i | 0 <= i < |v| ensures Multiplied(ones, v)[i] == v[i] {
      MultipliedSlot(ones, v, i);
    }
  }

  // ----- numbers -----

  /** A number added to the product, or taken from it, is what it should be exactly when
      the vector is full or the number is 0. */
  lemma NumberDiffers(op: BinOp, n: nat, x: Vec, v: Vec, c: real, d: LT.Diagonals)
    requires n > 0 && |x| == n && |v| <= n && (op == Add || op == Sub)
    ensures Agree(Binary(op, PRODUCT, Number("c")), Sample(n, x, v, c, d)) <==> |v| == n || c == 0.0
  {
    var w := Sample(n, x, v, c, d);
    NumberFhe(op, w, x, v, c);
    NumberPlain(op, w, x, v, c);
    hide RunFhe, RunPlain, GenFhe, GenPlain, Multiplied, Times, Encode, WithRight;
    MultipliedPads(x, v, n);
    EncodeFull(x);
    NumberExact(op, Multiplied(x, v), c, n);
  }

  lemma NumberFhe(op: BinOp, w: World, x: Vec, v: Vec, c: real)
    requires w.cts == map["x" := Some(x)] && w.vectors == map["v" := v] && |x| == w.n && |v| <= w.n
    requires w.numbers == map["c" := c] && (op == Add || op == Sub)
    ensures RunFhe(GenFhe(Binary(op, PRODUCT, Number("c"))), w) == Cipher(WithRight(op, Times(x, Encode(v, w.n)), c))
  {
    var fhe := GenFhe(PRODUCT);
    var sum, difference := EvalAdd(fhe, FheNumber("c")), EvalSub(fhe, FheNumber("c"));
    ProductFhe(w, x, v);
    FheCalls(fhe, FheNumber("c"), w);
    assert RunFhe(FheNumber("c"), w) == CppNumber(c);
    assert GenFhe(Binary(op, PRODUCT, Number("c"))) == if op == Add then sum else difference;
    hide RunFhe, GenFhe, Times, Encode, WithRight;
  }

  lemma NumberPlain(op: BinOp, w: World, x: Vec, v: Vec, c: real)
    requires w.cts == map["x" := Some(x)] && w.vectors == map["v" := v]
    requires w.numbers == map["c" := c] && (op == Add || op == Sub)
    ensures RunPlain(GenPlain(Binary(op, PRODUCT, Number("c"))), w)
         == PlainValue.Slots(WithRight(op, Multiplied(x, v), c))
  {
    var plain := GenPlain(PRODUCT);
    var sum, difference := AddCall(plain, NumberVar("c")), SubCall(plain, NumberVar("c"));
    ProductPlain(w, x, v);
    PlainCalls(plain, NumberVar("c"), w);
    assert RunPlain(NumberVar("c"), w) == PlainNumber(c);
    assert GenPlain(Binary(op, PRODUCT, Number("c"))) == if op == Add then sum else difference;
    hide RunPlain, GenPlain, Multiplied, Twin, WithRight;
    NumbersAgree(op, op, Multiplied(x, v), c);
  }

  // ----- rotations -----

  /** For a vector of m slots, the rotated product is what it should be on all values
      exactly when the rotation keeps the padding. */
  lemma RotationDiffers(m: nat, k: int, n: nat, c: real, d: LT.Diagonals)
    requires n > 0 && m <= n
    ensures RotationKept(m, k, n) <==>
      forall x: Vec, v: Vec :: |x| == n && |v| == m ==> Agree(Expr.Rotated(PRODUCT, k), Sample(n, x, v, c, d))
  {
    hide Agree, RotationKept, Rotate, PlainSlots.Rotated, Encode;
    if RotationKept(m, k, n) {
      forall x: Vec, v: Vec | |x| == n && |v| == m
        ensures Agree(Expr.Rotated(PRODUCT, k), Sample(n, x, v, c, d))
      {
        RotatedProduct(n, x, v, k, c, d);
        RotationPads(Multiplied(x, v), k, n);
      }
    } else {
      var a := ShortTransforms.RotationSpoiler(m, k, n);
      var x := ShortTransforms.Ones(n);
      OnesProduct(a, n);
      RotatedProduct(n, x, a, k, c, d);
    }
  }

  lemma RotatedProduct(n: nat, x: Vec, v: Vec, k: int, c: real, d: LT.Diagonals)
    requires n > 0 && |x| == n && |v| <= n
    ensures Agree(Expr.Rotated(PRODUCT, k), Sample(n, x, v, c, d))
       <==> Encode(PlainSlots.Rotated(Multiplied(x, v), k), n) == Rotate(Encode(Multiplied(x, v), n), k)
  {
    var w := Sample(n, x, v, c, d);
    ProductFhe(w, x, v);
    ProductPlain(w, x, v);
    FheRotates(GenFhe(PRODUCT), k, w);
    PlainRotates(GenPlain(PRODUCT), k, w);
    hide RunFhe, RunPlain, Multiplied, Times, Encode, Rotate, PlainSlots.Rotated;
    MultipliedPads(x, v, n);
    EncodeFull(x);
  }

  // ----- transforms -----

  /** For a vector of m slots and diagonals of the given lengths, the transformed product
      is what it should be on all values exactly when the lengths are kept. */
  lemma TransformDiffers(m: nat, lens: seq<nat>, bstep: nat, n: nat, c: real)
    requires n > 0 && bstep > 0 && m <= n && forall k :: 0 <= k < |lens| ==> lens[k] <= n
    ensures TransformKept(m, lens, bstep, n) <==>
      forall x: Vec, v: Vec, d: LT.Diagonals :: |x| == n && |v| == m && LT.Encodable(d, n) && Lengths(d) == lens ==>
        Agree(LinearTransformed(PRODUCT, "d", bstep), Sample(n, x, v, c, d))
  {
    hide Agree, TransformKept, LT.Encodable, Lengths, SameTransform, Encode;
    ShortTransforms.TransformExact(m, lens, bstep, n);
    if TransformKept(m, lens, bstep, n) {
      forall x: Vec, v: Vec, d: LT.Diagonals | |x| == n && |v| == m && LT.Encodable(d, n) && Lengths(d) == lens
        ensures Agree(LinearTransformed(PRODUCT, "d", bstep), Sample(n, x, v, c, d))
      {
        TransformedProduct(n, x, v, d, bstep, c);
        TransformPads(Multiplied(x, v), d, bstep, n);
      }
    } else {
      var v: Vec, d: LT.Diagonals :|
        |v| == m && LT.Encodable(d, n) && Lengths(d) == lens && !SameTransform(v, d, bstep, n);
      var x := ShortTransforms.Ones(n);
      OnesProduct(v, n);
      TransformedProduct(n, x, v, d, bstep, c);
    }
  }

  lemma TransformedProduct(n: nat, x: Vec, v: Vec, d: LT.Diagonals, bstep: nat, c: real)
    requires n > 0 && bstep > 0 && |x| == n && |v| <= n && LT.Encodable(d, n)
    ensures Agree(LinearTransformed(PRODUCT, "d", bstep), Sample(n, x, v, c, d)) <==>
      SameTransform(Multiplied(x, v), d, bstep, n)
  {
    TransformFhe(n, x, v, d, bstep, c);
    TransformPlain(n, x, v, d, bstep, c);
    hide RunFhe, RunPlain, GenFhe, GenPlain, Multiplied, Encode, Transform, Transformed, SameTransform, LT.Encodable;
    hide Stands;
    SameOrNone(Multiplied(x, v), d, bstep, n);
  }

  lemma TransformFhe(n: nat, x: Vec, v: Vec, d: LT.Diagonals, bstep: nat, c: real)
    requires n > 0 && |x| == n && |v| <= n
    ensures RunFhe(GenFhe(LinearTransformed(PRODUCT, "d", bstep)), Sample(n, x, v, c, d))
         == Transform(Cipher(Encode(Multiplied(x, v), n)), d, bstep)
  {
    var w := Sample(n, x, v, c, d);
    ProductFhe(w, x, v);
    FheTransforms(GenFhe(PRODUCT), "d", bstep, w);
    hide RunFhe, Multiplied, Times, Encode, Transform;
    MultipliedPads(x, v, n);
    EncodeFull(x);
  }

  lemma TransformPlain(n: nat, x: Vec, v: Vec, d: LT.Diagonals, bstep: nat, c: real)
    ensures var w := Sample(n, x, v, c, d);
      RunPlain(GenPlain(LinearTransformed(PRODUCT, "d", bstep)), w)
        == TransformedSlots(PlainValue.Slots(Multiplied(x, v)), "d", bstep, w)
  {
    var w := Sample(n, x, v, c, d);
    ProductPlain(w, x, v);
    PlainTransforms(GenPlain(PRODUCT), "d", bstep, w);
    hide RunPlain, Multiplied, TransformedSlots;
  }

  lemma SameOrNone(v: Vec, d: LT.Diagonals, bstep: nat, n: nat)
    requires bstep > 0 && |v| <= n && LT.Encodable(d, n)
    ensures var y := Transformed(v, d, bstep, Steps(|d|, bstep));
      Stands(Transform(Cipher(Encode(v, n)), d, bstep), PlainValue.Slots(y), n) <==> SameTransform(v, d, bstep, n)
  {
    hide Transformed, Encode, LT.TermSum, LT.Encodable;
    if |d| == 0 {
      NoTransform(v, d, bstep, n);
    }
  }

  lemma NoTransform(v: Vec, d: LT.Diagonals, bstep: nat, n: nat)
    requires |d| == 0 && bstep > 0 && |v| <= n
    ensures Transformed(v, d, bstep, Steps(|d|, bstep)) == [] && SameTransform(v, d, bstep, n)
  {}

  // ----- an example -----

  /** A product with a vector that is too short leaves the twin short, and a number added
      to it reaches only the slots it has. */
  lemma ShortVector(w: World)
    requires w.n == 2 && w.cts == map["x" := Some([1.0, 1.0])] && w.vectors == map["v" := [1.0]]
    ensures var e := Binary(Add, Binary(Mul, Expr.Ct("x"), Expr.Vector("v")), Literal(1.0));
      RunFhe(GenFhe(e), w) == Cipher([2.0, 1.0]) && RunPlain(GenPlain(e), w) == PlainValue.Slots([2.0])
  {
    var product := Binary(Mul, Expr.Ct("x"), Expr.Vector("v"));
    var fhe, plain := EvalMult(FheVar("x"), PackedPlaintext(FheVector("v"))), MulCall(SlotsVar("x"), VectorVar("v"));
    assert GenFhe(product) == fhe && GenPlain(product) == plain;
    var e := Binary(Add, product, Literal(1.0));
    assert GenFhe(e) == EvalAdd(fhe, FheLiteral(1.0)) && GenPlain(e) == AddCall(plain, PlainLiteral(1.0));
    ShortFhe(fhe, w);
    ShortPlain(plain, w);
  }

  lemma ShortFhe(fhe: Fhe, w: World)
    requires fhe == EvalMult(FheVar("x"), PackedPlaintext(FheVector("v")))
    requires w.n == 2 && w.cts == map["x" := Some([1.0, 1.0])] && w.vectors == map["v" := [1.0]]
    ensures RunFhe(EvalAdd(fhe, FheLiteral(1.0)), w) == Cipher([2.0, 1.0])
  {
    FheMults(FheVar("x"), PackedPlaintext(FheVector("v")), w);
    FheAdds(fhe, FheLiteral(1.0), w);
    var padded := Encode([1.0], 2);
    assert padded == [1.0, 0.0];
    assert RunFhe(PackedPlaintext(FheVector("v")), w) == Encoded(padded);
    assert RunFhe(FheVar("x"), w) == Cipher([1.0, 1.0]) && RunFhe(FheLiteral(1.0), w) == CppNumber(1.0);
    hide RunFhe;
    assert Elementwise(Mul, [1.0, 1.0], padded) == [1.0, 0.0];
    assert WithRight(Add, [1.0, 0.0], 1.0) == [2.0, 1.0];
  }

  lemma ShortPlain(plain: Plain, w: World)
    requires plain == MulCall(SlotsVar("x"), VectorVar("v"))
    requires w.cts == map["x" := Some([1.0, 1.0])] && w.vectors == map["v" := [1.0]]
    ensures RunPlain(AddCall(plain, PlainLiteral(1.0)), w) == PlainValue.Slots([2.0])
  {
    PlainMuls(SlotsVar("x"), VectorVar("v"), w);
    PlainAdds(plain, PlainLiteral(1.0), w);
    assert RunPlain(SlotsVar("x"), w) == PlainValue.Slots([1.0, 1.0]) &&
        RunPlain(VectorVar("v"), w) == PlainValue.Slots([1.0]);
    assert RunPlain(PlainLiteral(1.0), w) == PlainNumber(1.0);
    hide RunPlain;
    assert Multiplied([1.0, 1.0], [1.0]) == [1.0];
    NumbersAgree(Add, Add, [1.0], 1.0);
    assert WithRight(Add, [1.0], 1.0) == [2.0];
  }
}
