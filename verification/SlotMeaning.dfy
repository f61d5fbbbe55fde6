/** What an expression means, slot by slot and apart from any generated code, and that the
    code of both modes computes it. */
module SlotMeaning {
  import opened Slots
  import opened PlainSlots
  import opened TwoModes
  import LT = LinearTransform

  /** The value of every slot. */
  function Meaning(e: Expr, w: World): (r: Vec)
    ensures |r| == w.n
    decreases e
  {
    match e
    case Ct(x) => if x in w.cts && w.cts[x].Some? then Padded(w.cts[x].value, w.n) else seq(w.n, _ => 0.0)
    case Vector(x) => Padded(if x in w.vectors then w.vectors[x] else [], w.n)
    case Number(x) => seq(w.n, _ => if x in w.numbers then w.numbers[x] else 0.0)
    case Literal(v) => seq(w.n, _ => v)
    case Binary(op, l, r) => Combined(op, Meaning(l, w), Meaning(r, w))
    case Rotated(a, k) =>
      var x := Meaning(a, w);
      seq(w.n, i requires 0 <= i < w.n => x[(i + k) % w.n])
    case Negated(a) =>
      var x := Meaning(a, w);
      seq(w.n, i requires 0 <= i < w.n => 0.0 - x[i])
    case Relin(a) => Meaning(a, w)
    case Bootstrapped(a) => Meaning(a, w)
    case LinearTransformed(a, d, bstep) =>
      var x := Meaning(a, w);
      if d in w.diagonals && bstep > 0 then
        seq(w.n, i requires 0 <= i < w.n => DiagonalSum(x, w.diagonals[d], bstep, i, |w.diagonals[d]|))
      else x
  }

  function Padded(v: Vec, n: nat): (r: Vec)
    ensures |r| == n
  {
    seq(n, i requires 0 <= i => if i < |v| then v[i] else 0.0)
  }

  function Combined(op: BinOp, x: Vec, y: Vec): (r: Vec)
    requires |x| == |y|
    ensures |r| == |x|
  {
    seq(|x|, i requires 0 <= i < |x| =>
      match op
      case Add => x[i] + y[i]
      case Sub => x[i] - y[i]
      case Mul => x[i] * y[i]
      case MulNoRelin => x[i] * y[i])
  }

  /** Slot i of the product of x with the first hi diagonals, each laid out for the giant
      step it belongs to. */
  function DiagonalSum(x: Vec, d: LT.Diagonals, bstep: nat, i: nat, hi: nat): real
    requires bstep > 0 && hi <= |d| && i < |x|
  {
    if hi == 0 then 0.0
    else
      var k := hi - 1;
      DiagonalSum(x, d, bstep, i, k) + SlotProduct(x, d[k], bstep, i, k)
  }

  function SlotProduct(x: Vec, v: Vec, bstep: nat, i: nat, k: nat): real
    requires bstep > 0 && i < |x|
  {
    x[(i + k) % |x|] * Padded(v, |x|)[(i + k / bstep * bstep) % |x|]
  }

  // ----- the OpenFHE code -----

  /** The value has these slots: a null ciphertext none but zeros, a number all alike. */
  predicate Has(f: FheValue, s: Vec) {
    match f
    case Cipher(t) => t == s
    case Encoded(t) => t == s
    case NullCipher => forall i :: 0 <= i < |s| ==> s[i] == 0.0
    case CppVector(v) => s == Padded(v, |s|)
    case CppNumber(x) => forall i :: 0 <= i < |s| ==> s[i] == x
    case Failed => true
  }

  lemma PaddedIsEncoded(v: Vec, n: nat)
    requires |v| <= n
    ensures Padded(v, n) == Encode(v, n)
  {}

  lemma EvalHas(op: BinOp, a: FheValue, b: FheValue, x: Vec, y: Vec)
    requires |x| == |y| && Has(a, x) && Has(b, y)
    ensures Has(Eval(op, a, b), Combined(op, x, y))
  {
    hide Padded;
    var r := Eval(op, a, b);
    if r.Cipher? {
      forall i | 0 <= i < |x| ensures r.slots[i] == Combined(op, x, y)[i] { NumHas(op, x[i], y[i]); }
    }
  }

  lemma NumHas(op: BinOp, a: real, b: real)
    ensures Num(op, a, b) == Combined(op, [a], [b])[0]
  {}

  lemma OwnHas(op: BinOp, a: FheValue, b: FheValue, x: Vec, y: Vec)
    requires |x| == |y| && Has(a, x) && Has(b, y)
    ensures Has(OwnFhe(op, a, b), Combined(op, x, y))
  {
    hide Padded;
    forall i | 0 <= i < |x| && OwnFhe(op, a, b).CppNumber? ensures Combined(op, x, y)[i] == OwnFhe(op, a, b).x {
      NumHas(op, x[i], y[i]);
    }
  }

  lemma NullSafeHas(a: FheValue, b: FheValue, x: Vec, y: Vec)
    requires |x| == |y| && Has(a, x) && Has(b, y)
    ensures Has(NullSafe(a, b), Combined(Add, x, y))
  {
    if a.NullCipher? {
      assert Combined(Add, x, y) == y;
    } else {
      EvalHas(Add, a, b, x, y);
    }
  }

  lemma PackedHas(f: FheValue, x: Vec)
    requires Has(f, x)
    ensures Has(Packed(f, |x|), x)
  {
    if f.CppVector? && |f.v| <= |x| { PaddedIsEncoded(f.v, |x|); }
  }

  lemma Swapped(op: BinOp, x: Vec, y: Vec)
    requires |x| == |y| && op != Sub
    ensures Combined(op, x, y) == Combined(op, y, x)
  {}

  lemma BinaryHas(op: BinOp, l: Expr, r: Expr, left: Fhe, right: Fhe, x: Vec, y: Vec, w: World)
    requires |x| == |y| == w.n && Has(RunFhe(left, w), x) && Has(RunFhe(right, w), y)
    ensures Has(RunFhe(GenFheBinary(op, l, r, left, right), w), Combined(op, x, y))
  {
    hide Has, Combined, Eval, OwnFhe, Packed, NullSafe, Padded, RunFhe;
    if l.Encrypted() || r.Encrypted() {
      if l.Encrypted() != r.Encrypted() && op != MulNoRelin && (l.IsVector() || r.IsVector()) {
        MixedHas(op, l, r, left, right, x, y, w);
      } else {
        WrappedHas(left, l, x, w);
        WrappedHas(right, r, y, w);
        OperationHas(op, Wrapped(left, l), Wrapped(right, r), x, y, w);
      }
    } else {
      OperationHas(op, left, right, x, y, w);
    }
  }

  lemma OperationHas(op: BinOp, a: Fhe, b: Fhe, x: Vec, y: Vec, w: World)
    requires |x| == |y| == w.n && Has(RunFhe(a, w), x) && Has(RunFhe(b, w), y)
    ensures op == Add ==> Has(RunFhe(NullSafeEvalAdd(a, b), w), Combined(op, x, y))
    ensures op == Add ==> Has(RunFhe(EvalAdd(a, b), w), Combined(op, x, y))
    ensures op == Sub ==> Has(RunFhe(EvalSub(a, b), w), Combined(op, x, y))
    ensures op == Mul ==> Has(RunFhe(EvalMult(a, b), w), Combined(op, x, y))
    ensures op == MulNoRelin ==> Has(RunFhe(EvalMultNoRelin(a, b), w), Combined(op, x, y))
    ensures Has(RunFhe(FheCpp(op, a, b), w), Combined(op, x, y))
  {
    hide Has, Combined, Eval, OwnFhe, Packed, NullSafe, Padded, RunFhe;
    FheOperations(op, a, b, w);
    EvalHas(op, RunFhe(a, w), RunFhe(b, w), x, y);
    OwnHas(op, RunFhe(a, w), RunFhe(b, w), x, y);
    NullSafeHas(RunFhe(a, w), RunFhe(b, w), x, y);
  }

  lemma FheOperations(op: BinOp, a: Fhe, b: Fhe, w: World)
    ensures RunFhe(EvalAdd(a, b), w) == Eval(Add, RunFhe(a, w), RunFhe(b, w))
    ensures RunFhe(EvalSub(a, b), w) == Eval(Sub, RunFhe(a, w), RunFhe(b, w))
    ensures RunFhe(EvalMult(a, b), w) == Eval(Mul, RunFhe(a, w), RunFhe(b, w))
    ensures RunFhe(EvalMultNoRelin(a, b), w) == Eval(MulNoRelin, RunFhe(a, w), RunFhe(b, w))
    ensures RunFhe(NullSafeEvalAdd(a, b), w) == NullSafe(RunFhe(a, w), RunFhe(b, w))
    ensures RunFhe(FheCpp(op, a, b), w) == OwnFhe(op, RunFhe(a, w), RunFhe(b, w))
    ensures RunFhe(PackedPlaintext(a), w) == Packed(RunFhe(a, w), w.n)
  {
    hide Eval, NullSafe, OwnFhe, CtVar, Packed, RotatedCipher, NegatedCipher, SameCipher, TransformedCipher;
  }

  lemma WrappedHas(code: Fhe, e: Expr, x: Vec, w: World)
    requires |x| == w.n && Has(RunFhe(code, w), x)
    ensures Has(RunFhe(Wrapped(code, e), w), x)
  {
    hide Has, RunFhe;
    FheOperations(Add, code, code, w);
    PackedHas(RunFhe(code, w), x);
  }

  /** A ciphertext and a vector: the vector is packed, and comes second where the order is
      of no matter. */
  lemma MixedHas(op: BinOp, l: Expr, r: Expr, left: Fhe, right: Fhe, x: Vec, y: Vec, w: World)
    requires |x| == |y| == w.n && Has(RunFhe(left, w), x) && Has(RunFhe(right, w), y)
    requires l.Encrypted() != r.Encrypted() && op != MulNoRelin && (l.IsVector() || r.IsVector())
    ensures Has(RunFhe(GenFheBinary(op, l, r, left, right), w), Combined(op, x, y))
  {
    hide Has, Combined, Eval, OwnFhe, Packed, NullSafe, Padded, RunFhe;
    if l.IsVector() {
      var pt := PackedPlaintext(left);
      FheOperations(op, left, left, w);
      PackedHas(RunFhe(left, w), x);
      FheOperations(op, right, pt, w);
      FheOperations(op, pt, right, w);
      EvalHas(op, RunFhe(right, w), RunFhe(pt, w), y, x);
      EvalHas(op, RunFhe(pt, w), RunFhe(right, w), x, y);
      if op != Sub { Swapped(op, x, y); }
    } else {
      var pt := PackedPlaintext(right);
      FheOperations(op, right, right, w);
      PackedHas(RunFhe(right, w), y);
      FheOperations(op, left, pt, w);
      EvalHas(op, RunFhe(left, w), RunFhe(pt, w), x, y);
    }
  }

  lemma {:induction false} DiagonalsAgree(x: Vec, d: LT.Diagonals, bstep: nat, i: nat, hi: nat)
    requires bstep > 0 && LT.Encodable(d, |x|) && hi <= |d| && i < |x|
    ensures LT.TermSum(x, d, bstep, 0, hi)[i] == DiagonalSum(x, d, bstep, i, hi)
  {
    hide LT.Term, Plus, LT.SlotTerm, SlotProduct;
    if hi > 0 {
      var k := hi - 1;
      DiagonalsAgree(x, d, bstep, i, k);
      LT.TermSlot(x, d, bstep, k, i);
      PlusSlot(LT.TermSum(x, d, bstep, 0, k), LT.Term(x, d, bstep, k), i);
      SlotTermAgrees(x, d, bstep, i, k);
    }
  }

  lemma SlotTermAgrees(x: Vec, d: LT.Diagonals, bstep: nat, i: nat, k: nat)
    requires bstep > 0 && LT.Encodable(d, |x|) && k < |d| && i < |x|
    ensures LT.SlotTerm(x, d, bstep, i, k) == SlotProduct(x, d[k], bstep, i, k)
  {
    hide Padded, Encode;
    PaddedIsEncoded(d[k], |x|);
    assert k / bstep * bstep == bstep * (k / bstep);
  }

  lemma TransformHas(f: FheValue, x: Vec, a: Expr, d: string, bstep: nat, w: World)
    requires |x| == w.n && x == Meaning(a, w) && Has(f, x)
    ensures Has(TransformedCipher(f, d, bstep, w), Meaning(LinearTransformed(a, d, bstep), w))
  {
    hide Padded, LT.TermSum, DiagonalSum;
    var r := TransformedCipher(f, d, bstep, w);
    if r.Cipher? || r.NullCipher? {
      var ds, m := w.diagonals[d], Meaning(LinearTransformed(a, d, bstep), w);
      forall i | 0 <= i < w.n
        ensures m[i] == LT.TermSum(x, ds, bstep, 0, |ds|)[i] && (|ds| == 0 ==> m[i] == 0.0)
      {
        DiagonalsAgree(x, ds, bstep, i, |ds|);
        NoDiagonals(x, ds, bstep, i);
      }
      if r.Cipher? { assert r.slots == m; }
    }
  }

  lemma NoDiagonals(x: Vec, d: LT.Diagonals, bstep: nat, i: nat)
    requires bstep > 0 && i < |x|
    ensures DiagonalSum(x, d, bstep, i, 0) == 0.0
  {}

  /** Ciphertexts have the ring's slots. */
  predicate Ring(w: World) {
    forall x :: x in w.cts && w.cts[x].Some? ==> |w.cts[x].value| == w.n
  }

  /** Whatever the OpenFHE code computes is what the expression means, in every slot. */
  lemma {:induction false} FheMeans(e: Expr, w: World)
    requires w.n > 0 && Ring(w)
    ensures Has(RunFhe(GenFhe(e), w), Meaning(e, w))
  {
    hide GenFheBinary, Combined, Eval, NullSafe, OwnFhe, Packed, LT.Product, Transform, TransformedCipher, DiagonalSum;
    match e
    case Ct(x) => if x in w.cts && w.cts[x].Some? { assert Padded(w.cts[x].value, w.n) == w.cts[x].value; }
    case Binary(op, l, r) =>
      FheMeans(l, w);
      FheMeans(r, w);
      BinaryHas(op, l, r, GenFhe(l), GenFhe(r), Meaning(l, w), Meaning(r, w), w);
    case Rotated(a, k) =>
      FheMeans(a, w);
      RotatedHas(RunFhe(GenFhe(a), w), a, k, w);
    case Negated(a) =>
      FheMeans(a, w);
      NegatedHas(RunFhe(GenFhe(a), w), a, w);
    case Relin(a) => FheMeans(a, w);
    case Bootstrapped(a) => FheMeans(a, w);
    case LinearTransformed(a, d, bstep) =>
      FheMeans(a, w);
      TransformHas(RunFhe(GenFhe(a), w), Meaning(a, w), a, d, bstep, w);
    case _ =>
  }

  lemma RotatedHas(f: FheValue, a: Expr, k: int, w: World)
    requires Has(f, Meaning(a, w))
    ensures Has(RotatedCipher(f, k), Meaning(Rotated(a, k), w))
  {
    if f.Cipher? { assert Rotate(f.slots, k) == Meaning(Rotated(a, k), w); }
  }

  lemma NegatedHas(f: FheValue, a: Expr, w: World)
    requires Has(f, Meaning(a, w))
    ensures Has(NegatedCipher(f), Meaning(Negated(a), w))
  {
    if f.Cipher? {
      var r, m := Mapped(f.slots, Minus), Meaning(Negated(a), w);
      forall i | 0 <= i < w.n ensures r[i] == m[i] { assert r[i] == Minus(f.slots[i]); }
    }
  }

  // ----- the cleartext code -----

  /** The twin's value has these slots, zeros following. */
  predicate PlainHas(p: PlainValue, s: Vec) {
    match p
    case Slots(v) => |v| <= |s| ==> s == Padded(v, |s|)
    case PlainNumber(x) => forall i :: 0 <= i < |s| ==> s[i] == x
    case Bad => false
  }

  /** Wherever the OpenFHE code computes anything and no short vector is rotated or
      combined with a number, the plain code computes what the expression means. */
  lemma PlainMeans(e: Expr, w: World)
    requires w.n > 0 && Ring(w) && Sound(e, w) && !RunFhe(GenFhe(e), w).Failed?
    ensures PlainHas(RunPlain(GenPlain(e), w), Meaning(e, w))
    ensures RunFhe(GenFhe(e), w).Cipher? && Len(e, w) == w.n ==>
      RunPlain(GenPlain(e), w) == PlainValue.Slots(Meaning(e, w))
  {
    FheMeans(e, w);
    ModesAgree(e, w);
    hide RunFhe, RunPlain, GenFhe, GenPlain, Meaning, Len, Sound;
    var f, p := RunFhe(GenFhe(e), w), RunPlain(GenPlain(e), w);
    if f.Cipher? { PaddedIsEncoded(p.v, w.n); }
    if f.NullCipher? { assert Meaning(e, w) == Padded([], w.n); }
  }
}
