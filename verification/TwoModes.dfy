/** The code generated for an expression over ciphertexts, in OpenFHE calls and in the
    cleartext twins, and what both compute when ciphertexts are ideal slot vectors. */
module TwoModes {
  import opened Slots
  import opened PlainSlots
  import opened PaddedSlots
  import LT = LinearTransform

  // ----- source -----

  datatype BinOp = Add | Sub | Mul | MulNoRelin

  /** Variables: ciphertexts, plaintext vectors, numbers, and sets of diagonals. */
  datatype Expr =
    | Ct(name: string)
    | Vector(name: string)
    | Number(name: string)
    | Literal(value: real)
    | Binary(op: BinOp, left: Expr, right: Expr)
    | Rotated(arg: Expr, count: int)
    | Negated(arg: Expr)
    | Relin(arg: Expr)
    | Bootstrapped(arg: Expr)
    | LinearTransformed(arg: Expr, diagonals: string, bstep: nat)
  {
    /** _is_encrypted_expr */
    predicate Encrypted() {
      match this
      case Ct(_) => true
      case Vector(_) => false
      case Number(_) => false
      case Literal(_) => false
      case Binary(_, l, r) => l.Encrypted() || r.Encrypted()
      case Rotated(a, _) => true
      case Negated(_) => true
      case Relin(_) => true
      case Bootstrapped(_) => true
      case LinearTransformed(_, _, _) => true
    }

    /** _is_vector_expr, on the expressions modelled here. */
    predicate IsVector() {
      Vector?
    }
  }

  // ----- generated code -----

  /** C++ with OpenFHE calls. */
  datatype Fhe =
    | FheVar(name: string)
    | FheVector(name: string)
    | FheNumber(name: string)
    | FheLiteral(value: real)
    | PackedPlaintext(vector: Fhe)
    | NullSafeEvalAdd(a: Fhe, b: Fhe)
    | EvalAdd(a: Fhe, b: Fhe)
    | EvalSub(a: Fhe, b: Fhe)
    | EvalMult(a: Fhe, b: Fhe)
    | EvalMultNoRelin(a: Fhe, b: Fhe)
    | EvalRotate(a: Fhe, k: int)
    | EvalNegate(a: Fhe)
    | Relinearized(a: Fhe)
    | EvalBootstrap(a: Fhe)
    | NbLinearTransform(a: Fhe, diagonals: string, bstep: nat)
    | FheCpp(op: BinOp, a: Fhe, b: Fhe)

  /** C++ with the cleartext twins. */
  datatype Plain =
    | SlotsVar(name: string)
    | VectorVar(name: string)
    | NumberVar(name: string)
    | PlainLiteral(value: real)
    | NullsafeAddCall(a: Plain, b: Plain)
    | AddCall(a: Plain, b: Plain)
    | SubCall(a: Plain, b: Plain)
    | MulCall(a: Plain, b: Plain)
    | RotateCall(a: Plain, k: int)
    | NegateCall(a: Plain)
    | TransformCall(a: Plain, diagonals: string, bstep: nat)
    | PlainCpp(op: BinOp, a: Plain, b: Plain)
    | NoTwin                                             // a call on the context, which plain code has not

  /** _gen_binary_expr and the calls, OpenFHE mode. */
  function GenFhe(e: Expr): Fhe {
    match e
    case Ct(x) => FheVar(x)
    case Vector(x) => FheVector(x)
    case Number(x) => FheNumber(x)
    case Literal(v) => FheLiteral(v)
    case Binary(op, l, r) => GenFheBinary(op, l, r, GenFhe(l), GenFhe(r))
    case Rotated(a, k) => EvalRotate(GenFhe(a), k)
    case Negated(a) => EvalNegate(GenFhe(a))
    case Relin(a) => Relinearized(GenFhe(a))
    case Bootstrapped(a) => EvalBootstrap(GenFhe(a))
    case LinearTransformed(a, d, bstep) => NbLinearTransform(GenFhe(a), d, bstep)
  }

  function Wrapped(code: Fhe, e: Expr): Fhe {
    if !e.Encrypted() && e.IsVector() then PackedPlaintext(code) else code
  }

  function GenFheBinary(op: BinOp, l: Expr, r: Expr, left: Fhe, right: Fhe): Fhe {
    if l.Encrypted() || r.Encrypted() then
      if l.Encrypted() != r.Encrypted() && op != MulNoRelin && (l.IsVector() || r.IsVector()) then
        var ct, pt := if l.IsVector() then right else left, PackedPlaintext(if l.IsVector() then left else right);
        match op
        case Add => EvalAdd(ct, pt)
        case Sub => if l.IsVector() then EvalSub(pt, ct) else EvalSub(ct, pt)
        case _ => EvalMult(ct, pt)
      else
        var a, b := Wrapped(left, l), Wrapped(right, r);
        match op
        case Add => if l.Encrypted() && r.Encrypted() then NullSafeEvalAdd(a, b) else EvalAdd(a, b)
        case Sub => EvalSub(a, b)
        case Mul => EvalMult(a, b)
        case MulNoRelin => EvalMultNoRelin(a, b)
    else if op == MulNoRelin then EvalMultNoRelin(left, right)
    else FheCpp(op, left, right)
  }

  /** The same, plain mode. */
  function GenPlain(e: Expr): Plain {
    match e
    case Ct(x) => SlotsVar(x)
    case Vector(x) => VectorVar(x)
    case Number(x) => NumberVar(x)
    case Literal(v) => PlainLiteral(v)
    case Binary(op, l, r) => GenPlainBinary(op, l, r, GenPlain(l), GenPlain(r))
    case Rotated(a, k) => RotateCall(GenPlain(a), k)
    case Negated(a) => NegateCall(GenPlain(a))
    case Relin(a) => GenPlain(a)
    case Bootstrapped(a) => GenPlain(a)
    case LinearTransformed(a, d, bstep) => TransformCall(GenPlain(a), d, bstep)
  }

  function GenPlainBinary(op: BinOp, l: Expr, r: Expr, left: Plain, right: Plain): Plain {
    if l.Encrypted() || r.Encrypted() then
      match op
      case Add => if l.Encrypted() && r.Encrypted() then NullsafeAddCall(left, right) else AddCall(left, right)
      case Sub => SubCall(left, right)
      case _ => MulCall(left, right)
    else if op == MulNoRelin then NoTwin
    else PlainCpp(op, left, right)
  }

  // ----- what the generated code computes -----

  /** The ring's slots, and the variables. */
  datatype World = World(n: nat, cts: map<string, Slots.Ct>, vectors: map<string, Vec>, numbers: map<string, real>,
                         diagonals: map<string, LT.Diagonals>)

  datatype FheValue =
    | Cipher(slots: Vec)
    | NullCipher
    | Encoded(slots: Vec)
    | CppVector(v: Vec)
    | CppNumber(x: real)
    | Failed

  function Num(op: BinOp, x: real, y: real): real {
    match op
    case Add => x + y
    case Sub => x - y
    case _ => x * y
  }

  function Elementwise(op: BinOp, a: Vec, b: Vec): (r: Vec)
    requires |a| == |b|
    ensures |r| == |a|
  {
    seq(|a|, i requires 0 <= i < |a| => Num(op, a[i], b[i]))
  }

  function WithRight(op: BinOp, a: Vec, x: real): (r: Vec)
    ensures |r| == |a|
  {
    seq(|a|, i requires 0 <= i < |a| => Num(op, a[i], x))
  }

  function WithLeft(op: BinOp, x: real, a: Vec): (r: Vec)
    ensures |r| == |a|
  {
    seq(|a|, i requires 0 <= i < |a| => Num(op, x, a[i]))
  }

  /** An ideal EvalAdd, EvalSub or EvalMult: on two ciphertexts, a ciphertext and an
      encoded vector, or a ciphertext and a number, in either order. */
  function Eval(op: BinOp, a: FheValue, b: FheValue): FheValue {
    if a.Cipher? && (b.Cipher? || b.Encoded?) && |a.slots| == |b.slots| then Cipher(Elementwise(op, a.slots, b.slots))
    else if a.Encoded? && b.Cipher? && |a.slots| == |b.slots| then Cipher(Elementwise(op, a.slots, b.slots))
    else if a.Cipher? && b.CppNumber? then Cipher(WithRight(op, a.slots, b.x))
    else if a.CppNumber? && b.Cipher? then Cipher(WithLeft(op, a.x, b.slots))
    else Failed
  }

  /** nb_linear_transform on an ideal ciphertext. */
  function Transform(a: FheValue, d: LT.Diagonals, bstep: nat): FheValue {
    if a.Cipher? && bstep > 0 && LT.Encodable(d, |a.slots|) then
      var y := LT.Product(a.slots, d, bstep);
      if y.Some? then Cipher(y.value) else NullCipher
    else Failed
  }

  function CtVar(x: string, w: World): FheValue {
    if x in w.cts then (if w.cts[x].Some? then Cipher(w.cts[x].value) else NullCipher) else Failed
  }

  function Packed(v: FheValue, n: nat): FheValue {
    if v.CppVector? && |v.v| <= n then Encoded(Encode(v.v, n)) else Failed
  }

  function NullSafe(a: FheValue, b: FheValue): FheValue {
    if a.NullCipher? then b else Eval(Add, a, b)
  }

  function RotatedCipher(a: FheValue, k: int): FheValue {
    if a.Cipher? then Cipher(Rotate(a.slots, k)) else Failed
  }

  function NegatedCipher(a: FheValue): FheValue {
    if a.Cipher? then Cipher(Mapped(a.slots, Minus)) else Failed
  }

  /** Relinearization and bootstrapping change no slot. */
  function SameCipher(a: FheValue): FheValue {
    if a.Cipher? then a else Failed
  }

  function TransformedCipher(a: FheValue, d: string, bstep: nat, w: World): FheValue {
    if d in w.diagonals then Transform(a, w.diagonals[d], bstep) else Failed
  }

  function OwnFhe(op: BinOp, a: FheValue, b: FheValue): FheValue {
    if a.CppNumber? && b.CppNumber? then CppNumber(Num(op, a.x, b.x)) else Failed
  }

  function RunFhe(c: Fhe, w: World): FheValue {
    match c
    case FheVar(x) => CtVar(x, w)
    case FheVector(x) => if x in w.vectors then CppVector(w.vectors[x]) else Failed
    case FheNumber(x) => if x in w.numbers then CppNumber(w.numbers[x]) else Failed
    case FheLiteral(v) => CppNumber(v)
    case PackedPlaintext(v) => Packed(RunFhe(v, w), w.n)
    case NullSafeEvalAdd(a, b) => NullSafe(RunFhe(a, w), RunFhe(b, w))
    case EvalAdd(a, b) => Eval(Add, RunFhe(a, w), RunFhe(b, w))
    case EvalSub(a, b) => Eval(Sub, RunFhe(a, w), RunFhe(b, w))
    case EvalMult(a, b) => Eval(Mul, RunFhe(a, w), RunFhe(b, w))
    case EvalMultNoRelin(a, b) => Eval(MulNoRelin, RunFhe(a, w), RunFhe(b, w))
    case EvalRotate(a, k) => RotatedCipher(RunFhe(a, w), k)
    case EvalNegate(a) => NegatedCipher(RunFhe(a, w))
    case Relinearized(a) => SameCipher(RunFhe(a, w))
    case EvalBootstrap(a) => SameCipher(RunFhe(a, w))
    case NbLinearTransform(a, d, bstep) => TransformedCipher(RunFhe(a, w), d, bstep, w)
    case FheCpp(op, a, b) => OwnFhe(op, RunFhe(a, w), RunFhe(b, w))
  }

  function Minus(x: real): real {
    -x
  }

  datatype PlainValue = Slots(v: Vec) | PlainNumber(x: real) | Bad

  /** The twins' overloads: two vectors, or a vector and a number. */
  function Twin(op: BinOp, a: PlainValue, b: PlainValue): PlainValue {
    if a.Slots? && b.Slots? then
      Slots(match op case Add => Added(a.v, b.v) case Sub => Subtracted(a.v, b.v) case _ => Multiplied(a.v, b.v))
    else if a.Slots? && b.PlainNumber? then Slots(Mapped(a.v, s => Num(op, s, b.x)))
    else if a.PlainNumber? && b.Slots? then Slots(Mapped(b.v, s => Num(op, a.x, s)))
    else Bad
  }

  function SlotsOf(x: string, w: World): PlainValue {
    if x in w.cts then Slots(if w.cts[x].Some? then w.cts[x].value else []) else Bad
  }

  function NullsafeTwin(a: PlainValue, b: PlainValue): PlainValue {
    if a.Slots? && b.Slots? then Slots(NullsafeAdded(a.v, b.v)) else Bad
  }

  function RotatedSlots(a: PlainValue, k: int): PlainValue {
    if a.Slots? then Slots(PlainSlots.Rotated(a.v, k)) else Bad
  }

  function NegatedSlots(a: PlainValue): PlainValue {
    if a.Slots? then Slots(Mapped(a.v, Minus)) else Bad
  }

  function TransformedSlots(a: PlainValue, d: string, bstep: nat, w: World): PlainValue {
    if a.Slots? && d in w.diagonals && bstep > 0 then
      Slots(Transformed(a.v, w.diagonals[d], bstep, Steps(|w.diagonals[d]|, bstep)))
    else Bad
  }

  function OwnPlain(op: BinOp, a: PlainValue, b: PlainValue): PlainValue {
    if a.PlainNumber? && b.PlainNumber? then PlainNumber(Num(op, a.x, b.x)) else Bad
  }

  function RunPlain(c: Plain, w: World): PlainValue {
    match c
    case SlotsVar(x) => SlotsOf(x, w)
    case VectorVar(x) => if x in w.vectors then Slots(w.vectors[x]) else Bad
    case NumberVar(x) => if x in w.numbers then PlainNumber(w.numbers[x]) else Bad
    case PlainLiteral(v) => PlainNumber(v)
    case NullsafeAddCall(a, b) => NullsafeTwin(RunPlain(a, w), RunPlain(b, w))
    case AddCall(a, b) => Twin(Add, RunPlain(a, w), RunPlain(b, w))
    case SubCall(a, b) => Twin(Sub, RunPlain(a, w), RunPlain(b, w))
    case MulCall(a, b) => Twin(Mul, RunPlain(a, w), RunPlain(b, w))
    case RotateCall(a, k) => RotatedSlots(RunPlain(a, w), k)
    case NegateCall(a) => NegatedSlots(RunPlain(a, w))
    case TransformCall(a, d, bstep) => TransformedSlots(RunPlain(a, w), d, bstep, w)
    case PlainCpp(op, a, b) => OwnPlain(op, RunPlain(a, w), RunPlain(b, w))
    case NoTwin => Bad
  }

  // ----- agreement -----

  /** The plain value that stands for an OpenFHE one: a ciphertext's slots, or those before
      a tail of zeros. */
  predicate Stands(f: FheValue, p: PlainValue, n: nat) {
    match f
    case Cipher(s) => p.Slots? && |p.v| <= n && s == Encode(p.v, n)
    case NullCipher => p == Slots([])
    case CppVector(v) => p == Slots(v)
    case CppNumber(x) => p == PlainNumber(x)
    case Encoded(_) => false
    case Failed => false
  }

  lemma PlusIsAdd(a: Vec, b: Vec)
    requires |a| == |b|
    ensures Elementwise(Add, a, b) == Plus(a, b)
  {
    forall i | 0 <= i < |a| ensures Elementwise(Add, a, b)[i] == Plus(a, b)[i] {}
  }

  lemma TimesIsMul(a: Vec, b: Vec, op: BinOp)
    requires |a| == |b| && (op == Mul || op == MulNoRelin)
    ensures Elementwise(op, a, b) == Times(a, b)
  {
    var t, e := Times(a, b), Elementwise(op, a, b);
    forall i | 0 <= i < |a| ensures e[i] == t[i] {
      TimesSlot(a, b, i);
      NumTimes(op, a[i], b[i]);
    }
  }

  lemma SubtractedPads(a: Vec, b: Vec, n: nat)
    requires |a| <= n && |b| <= n
    ensures Encode(Subtracted(a, b), n) == Elementwise(Sub, Encode(a, n), Encode(b, n))
  {
    var left, right := Encode(Subtracted(a, b), n), Elementwise(Sub, Encode(a, n), Encode(b, n));
    forall i | 0 <= i < n ensures left[i] == right[i] {}
  }

  lemma NumTimes(op: BinOp, x: real, y: real)
    requires op == Mul || op == MulNoRelin
    ensures Num(op, x, y) == x * y
  {}

  lemma Commutes(op: BinOp, a: Vec, b: Vec)
    requires |a| == |b| && op != Sub
    ensures Elementwise(op, a, b) == Elementwise(op, b, a)
  {
    forall i | 0 <= i < |a| ensures Elementwise(op, a, b)[i] == Elementwise(op, b, a)[i] {}
  }

  /** The twin's operation is the FHE operation's but for relinearization. */
  predicate TwinOf(op: BinOp, twin: BinOp) {
    twin == op || (op == MulNoRelin && twin == Mul)
  }

  lemma VectorsAgree(op: BinOp, twin: BinOp, a: Vec, b: Vec, n: nat)
    requires |a| <= n && |b| <= n && TwinOf(op, twin)
    ensures var r := Twin(twin, Slots(a), Slots(b));
      r.Slots? && |r.v| == BothLength(op, |a|, |b|) && Encode(r.v, n) == Elementwise(op, Encode(a, n), Encode(b, n))
  {
    hide Elementwise, Plus, Times, Added, Subtracted, Multiplied, Encode;
    match twin
    case Add =>
      AddedPads(a, b, n);
      PlusIsAdd(Encode(a, n), Encode(b, n));
    case Sub =>
      SubtractedPads(a, b, n);
    case _ =>
      MultipliedPads(a, b, n);
      TimesIsMul(Encode(a, n), Encode(b, n), op);
  }

  /** Sums and differences are as long as the longer operand, products as the shorter one. */
  function BothLength(op: BinOp, m: nat, k: nat): nat {
    if op == Add || op == Sub then Larger(m, k) else Smaller(m, k)
  }

  lemma NumTwin(op: BinOp, twin: BinOp, x: real, y: real)
    requires TwinOf(op, twin)
    ensures Num(op, x, y) == Num(twin, x, y)
  {}

  lemma NumbersAgree(op: BinOp, twin: BinOp, a: Vec, x: real)
    requires TwinOf(op, twin)
    ensures Twin(twin, Slots(a), PlainNumber(x)) == Slots(WithRight(op, a, x))
    ensures Twin(twin, PlainNumber(x), Slots(a)) == Slots(WithLeft(op, x, a))
  {
    hide Num;
    var right, left := Mapped(a, s => Num(twin, s, x)), Mapped(a, s => Num(twin, x, s));
    forall i | 0 <= i < |a| ensures right[i] == WithRight(op, a, x)[i] && left[i] == WithLeft(op, x, a)[i] {
      NumTwin(op, twin, a[i], x);
      NumTwin(op, twin, x, a[i]);
    }
  }

  /** A number that an operation with a vector of m slots leaves alone in the padding. */
  predicate NumberKept(op: BinOp, m: nat, x: real, n: nat) {
    m == n || x == 0.0 || op == Mul || op == MulNoRelin
  }

  /** Padding goes with a number on either side exactly when the vector is full, or the
      number changes no zero. */
  lemma NumberExact(op: BinOp, a: Vec, x: real, n: nat)
    requires |a| <= n
    ensures Encode(WithRight(op, a, x), n) == WithRight(op, Encode(a, n), x) <==> NumberKept(op, |a|, x, n)
    ensures Encode(WithLeft(op, x, a), n) == WithLeft(op, x, Encode(a, n)) <==> NumberKept(op, |a|, x, n)
  {
    NumberRight(op, a, x, n);
    NumberLeft(op, a, x, n);
  }

  lemma NumberRight(op: BinOp, a: Vec, x: real, n: nat)
    requires |a| <= n
    ensures Encode(WithRight(op, a, x), n) == WithRight(op, Encode(a, n), x) <==> NumberKept(op, |a|, x, n)
  {
    var left, right := Encode(WithRight(op, a, x), n), WithRight(op, Encode(a, n), x);
    if |a| < n {
      assert left[|a|] == 0.0 && right[|a|] == Num(op, 0.0, x);
    }
    if NumberKept(op, |a|, x, n) {
      assert left == right;
    }
  }

  lemma NumberLeft(op: BinOp, a: Vec, x: real, n: nat)
    requires |a| <= n
    ensures Encode(WithLeft(op, x, a), n) == WithLeft(op, x, Encode(a, n)) <==> NumberKept(op, |a|, x, n)
  {
    var left, right := Encode(WithLeft(op, x, a), n), WithLeft(op, x, Encode(a, n));
    if |a| < n {
      assert left[|a|] == 0.0 && right[|a|] == Num(op, x, 0.0);
    }
    if NumberKept(op, |a|, x, n) {
      assert left == right;
    }
  }

  /** A ciphertext or an encoded vector, as the twins see it. */
  predicate StandsEncoded(f: FheValue, p: PlainValue, n: nat) {
    Stands(f, p, n) || (f.Encoded? && p.Slots? && |p.v| <= n && f.slots == Encode(p.v, n))
  }

  /** A number is combined only with a vector that it leaves padded. */
  predicate NumbersKept(op: BinOp, p: PlainValue, q: PlainValue, n: nat) {
    && (p.Slots? && q.PlainNumber? ==> NumberKept(op, |p.v|, q.x, n))
    && (p.PlainNumber? && q.Slots? ==> NumberKept(op, |q.v|, p.x, n))
  }

  function ResultLength(op: BinOp, p: PlainValue, q: PlainValue): nat {
    if p.Slots? && q.Slots? then BothLength(op, |p.v|, |q.v|)
    else if p.Slots? then |p.v|
    else if q.Slots? then |q.v|
    else 0
  }

  lemma EvalAgrees(op: BinOp, twin: BinOp, a: FheValue, b: FheValue, p: PlainValue, q: PlainValue, n: nat)
    requires TwinOf(op, twin) && StandsEncoded(a, p, n) && StandsEncoded(b, q, n) && NumbersKept(op, p, q, n)
    ensures !Eval(op, a, b).Failed? ==>
      Stands(Eval(op, a, b), Twin(twin, p, q), n) && |Twin(twin, p, q).v| == ResultLength(op, p, q)
  {
    hide Twin, Elementwise, Mapped, Num, WithRight, WithLeft, Encode;
    if (a.Cipher? && (b.Cipher? || b.Encoded?)) || (a.Encoded? && b.Cipher?) {
      VectorsAgree(op, twin, p.v, q.v, n);
    } else if a.Cipher? && b.CppNumber? {
      NumbersAgree(op, twin, p.v, b.x);
      NumberExact(op, p.v, b.x, n);
    } else if a.CppNumber? && b.Cipher? {
      NumbersAgree(op, twin, q.v, a.x);
      NumberExact(op, q.v, a.x, n);
    }
  }

  lemma SwappedAgrees(op: BinOp, a: FheValue, b: FheValue)
    requires op != Sub && a.Cipher? && b.Encoded?
    ensures Eval(op, a, b) == Eval(op, b, a)
  {
    if |a.slots| == |b.slots| { Commutes(op, a.slots, b.slots); }
  }

  // ----- the transform -----

  /** The twin's transform stands for the OpenFHE one, and is empty when there is none. */
  lemma TransformAgrees(v: Vec, d: LT.Diagonals, bstep: nat, n: nat)
    requires n > 0 && bstep > 0 && |v| <= n && LT.Encodable(d, n) && TransformKept(|v|, Lengths(d), bstep, n)
    ensures var y := Transformed(v, d, bstep, Steps(|d|, bstep));
      |y| == Smaller(|v|, Longest(Lengths(d), 0, |d|))
      && Stands(Transform(Cipher(Encode(v, n)), d, bstep), Slots(y), n)
  {
    hide Transformed, TransformKept, LT.TermSum, LT.Encodable, Lengths, Encode;
    TransformPads(v, d, bstep, n);
    TransformLength(v, d, bstep);
  }

  // ----- every expression -----

  /** A ciphertext's code gives a ciphertext, a vector's the vector, any other a number. */
  predicate Kind(e: Expr, f: FheValue) {
    || f.Failed?
    || (if e.Encrypted() then f.Cipher? || f.NullCipher? else if e.IsVector() then f.CppVector? else f.CppNumber?)
  }

  lemma PackedStands(f: FheValue, p: PlainValue, w: World)
    requires f.CppVector? && Stands(f, p, w.n) && |f.v| <= w.n
    ensures StandsEncoded(Encoded(Encode(f.v, w.n)), p, w.n)
  {}

  predicate IsNumber(e: Expr) {
    !e.Encrypted() && !e.IsVector()
  }

  /** How many slots the plain code's value has, from the lengths of what the expression
      names; a null accumulator has none. */
  function Len(e: Expr, w: World): nat {
    match e
    case Ct(x) => if x in w.cts && w.cts[x].Some? then |w.cts[x].value| else 0
    case Vector(x) => if x in w.vectors then |w.vectors[x]| else 0
    case Number(_) => 0
    case Literal(_) => 0
    case Binary(op, l, r) => BinaryLen(op, l, r, Len(l, w), Len(r, w))
    case Rotated(a, _) => Len(a, w)
    case Negated(a) => Len(a, w)
    case Relin(a) => Len(a, w)
    case Bootstrapped(a) => Len(a, w)
    case LinearTransformed(a, d, _) =>
      if d in w.diagonals then Smaller(Len(a, w), Longest(Lengths(w.diagonals[d]), 0, |w.diagonals[d]|)) else 0
  }

  function BinaryLen(op: BinOp, l: Expr, r: Expr, m: nat, k: nat): nat {
    if IsNumber(l) then k else if IsNumber(r) then m else BothLength(op, m, k)
  }

  /** Both codes of an expression give values of its kind, and the twin's stands for the
      other's unless that one fails. */
  predicate Ready(e: Expr, fhe: Fhe, plain: Plain, w: World) {
    var f, p := RunFhe(fhe, w), RunPlain(plain, w);
    Kind(e, f) && (!f.Failed? ==> Stands(f, p, w.n) && (p.Slots? ==> |p.v| == Len(e, w)))
  }

  lemma FheAdds(a: Fhe, b: Fhe, w: World)
    ensures RunFhe(EvalAdd(a, b), w) == Eval(Add, RunFhe(a, w), RunFhe(b, w))
  {
    hide Eval, NullSafe, OwnFhe, CtVar, Packed, RotatedCipher, NegatedCipher, SameCipher, TransformedCipher;
  }

  lemma FheSubs(a: Fhe, b: Fhe, w: World)
    ensures RunFhe(EvalSub(a, b), w) == Eval(Sub, RunFhe(a, w), RunFhe(b, w))
  {
    hide Eval, NullSafe, OwnFhe, CtVar, Packed, RotatedCipher, NegatedCipher, SameCipher, TransformedCipher;
  }

  lemma FheMults(a: Fhe, b: Fhe, w: World)
    ensures RunFhe(EvalMult(a, b), w) == Eval(Mul, RunFhe(a, w), RunFhe(b, w))
  {
    hide Eval, NullSafe, OwnFhe, CtVar, Packed, RotatedCipher, NegatedCipher, SameCipher, TransformedCipher;
  }

  lemma FheMultsNoRelin(a: Fhe, b: Fhe, w: World)
    ensures RunFhe(EvalMultNoRelin(a, b), w) == Eval(MulNoRelin, RunFhe(a, w), RunFhe(b, w))
  {
    hide Eval, NullSafe, OwnFhe, CtVar, Packed, RotatedCipher, NegatedCipher, SameCipher, TransformedCipher;
  }

  lemma FheNullSafeAdds(a: Fhe, b: Fhe, w: World)
    ensures RunFhe(NullSafeEvalAdd(a, b), w) == NullSafe(RunFhe(a, w), RunFhe(b, w))
  {
    hide Eval, NullSafe, OwnFhe, CtVar, Packed, RotatedCipher, NegatedCipher, SameCipher, TransformedCipher;
  }

  lemma PlainAdds(a: Plain, b: Plain, w: World)
    ensures RunPlain(AddCall(a, b), w) == Twin(Add, RunPlain(a, w), RunPlain(b, w))
  {
    hide Twin, NullsafeTwin, OwnPlain, SlotsOf, RotatedSlots, NegatedSlots, TransformedSlots;
  }

  lemma PlainSubs(a: Plain, b: Plain, w: World)
    ensures RunPlain(SubCall(a, b), w) == Twin(Sub, RunPlain(a, w), RunPlain(b, w))
  {
    hide Twin, NullsafeTwin, OwnPlain, SlotsOf, RotatedSlots, NegatedSlots, TransformedSlots;
  }

  lemma PlainMuls(a: Plain, b: Plain, w: World)
    ensures RunPlain(MulCall(a, b), w) == Twin(Mul, RunPlain(a, w), RunPlain(b, w))
  {
    hide Twin, NullsafeTwin, OwnPlain, SlotsOf, RotatedSlots, NegatedSlots, TransformedSlots;
  }

  lemma PlainNullsafeAdds(a: Plain, b: Plain, w: World)
    ensures RunPlain(NullsafeAddCall(a, b), w) == NullsafeTwin(RunPlain(a, w), RunPlain(b, w))
  {
    hide Twin, NullsafeTwin, OwnPlain, SlotsOf, RotatedSlots, NegatedSlots, TransformedSlots;
  }

  /** What the calls on two operands run. */
  lemma FheCalls(a: Fhe, b: Fhe, w: World)
    ensures RunFhe(EvalAdd(a, b), w) == Eval(Add, RunFhe(a, w), RunFhe(b, w))
    ensures RunFhe(EvalSub(a, b), w) == Eval(Sub, RunFhe(a, w), RunFhe(b, w))
    ensures RunFhe(EvalMult(a, b), w) == Eval(Mul, RunFhe(a, w), RunFhe(b, w))
    ensures RunFhe(EvalMultNoRelin(a, b), w) == Eval(MulNoRelin, RunFhe(a, w), RunFhe(b, w))
    ensures RunFhe(NullSafeEvalAdd(a, b), w) == NullSafe(RunFhe(a, w), RunFhe(b, w))
  {
    hide RunFhe, Eval, NullSafe;
    FheAdds(a, b, w);
    FheSubs(a, b, w);
    FheMults(a, b, w);
    FheMultsNoRelin(a, b, w);
    FheNullSafeAdds(a, b, w);
  }

  lemma PlainCalls(a: Plain, b: Plain, w: World)
    ensures RunPlain(AddCall(a, b), w) == Twin(Add, RunPlain(a, w), RunPlain(b, w))
    ensures RunPlain(SubCall(a, b), w) == Twin(Sub, RunPlain(a, w), RunPlain(b, w))
    ensures RunPlain(MulCall(a, b), w) == Twin(Mul, RunPlain(a, w), RunPlain(b, w))
    ensures RunPlain(NullsafeAddCall(a, b), w) == NullsafeTwin(RunPlain(a, w), RunPlain(b, w))
  {
    hide RunPlain, Twin, NullsafeTwin;
    PlainAdds(a, b, w);
    PlainSubs(a, b, w);
    PlainMuls(a, b, w);
    PlainNullsafeAdds(a, b, w);
  }

  lemma OwnFheCall(op: BinOp, a: Fhe, b: Fhe, w: World)
    ensures RunFhe(FheCpp(op, a, b), w) == OwnFhe(op, RunFhe(a, w), RunFhe(b, w))
  {
    hide Eval, NullSafe, OwnFhe, CtVar, Packed, RotatedCipher, NegatedCipher, SameCipher, TransformedCipher;
  }

  lemma OwnPlainCall(op: BinOp, p: Plain, q: Plain, w: World)
    ensures RunPlain(PlainCpp(op, p, q), w) == OwnPlain(op, RunPlain(p, w), RunPlain(q, w))
  {
    hide Twin, NullsafeTwin, OwnPlain, SlotsOf, RotatedSlots, NegatedSlots, TransformedSlots;
  }

  lemma TwoCiphertexts(op: BinOp, l: Expr, r: Expr, left: Fhe, right: Fhe, pl: Plain, pr: Plain, w: World)
    requires l.Encrypted() && r.Encrypted() && Ready(l, left, pl, w) && Ready(r, right, pr, w)
    ensures Ready(Binary(op, l, r), GenFheBinary(op, l, r, left, right), GenPlainBinary(op, l, r, pl, pr), w)
  {
    FheCalls(left, right, w);
    PlainCalls(pl, pr, w);
    hide Eval, Twin, NullsafeAdded, RunFhe, RunPlain, Encode, Larger, Smaller;
    var a, b, p, q := RunFhe(left, w), RunFhe(right, w), RunPlain(pl, w), RunPlain(pr, w);
    EvalKind(op, a, b);
    if !a.Failed? && !b.Failed? {
      EvalAgrees(op, if op == MulNoRelin then Mul else op, a, b, p, q, w.n);
      if op == Add { NullsafeAgrees(a, b, p, q, w.n); }
    } else {
      EvalFails(op, a, b);
    }
  }

  /** Eval gives a ciphertext or fails, and fails on a failed or null operand. */
  lemma EvalKind(op: BinOp, a: FheValue, b: FheValue)
    ensures Eval(op, a, b).Cipher? || Eval(op, a, b).Failed?
  {}

  lemma EvalFails(op: BinOp, a: FheValue, b: FheValue)
    requires a.Failed? || b.Failed?
    ensures Eval(op, a, b).Failed?
  {}

  lemma NullsafeAgrees(a: FheValue, b: FheValue, p: PlainValue, q: PlainValue, n: nat)
    requires (a.Cipher? || a.NullCipher?) && (b.Cipher? || b.NullCipher?) && Stands(a, p, n) && Stands(b, q, n)
    ensures a.NullCipher? ==> NullsafeAdded(p.v, q.v) == q.v && BothLength(Add, |p.v|, |q.v|) == |q.v|
    ensures a.Cipher? ==> Slots(NullsafeAdded(p.v, q.v)) == Twin(Add, p, q)
  {
    hide Added, Subtracted, Multiplied, Encode;
    NullsafeIsAdded(p.v, q.v);
  }

  lemma TwoPlaintexts(op: BinOp, l: Expr, r: Expr, left: Fhe, right: Fhe, pl: Plain, pr: Plain, w: World)
    requires !l.Encrypted() && !r.Encrypted() && Ready(l, left, pl, w) && Ready(r, right, pr, w)
    ensures Ready(Binary(op, l, r), GenFheBinary(op, l, r, left, right), GenPlainBinary(op, l, r, pl, pr), w)
  {
    FheCalls(left, right, w);
    PlainCalls(pl, pr, w);
    OwnFheCall(op, left, right, w);
    OwnPlainCall(op, pl, pr, w);
    hide Num, Eval, Twin, RunFhe, RunPlain;
    var a, b := RunFhe(left, w), RunFhe(right, w);
    NoCiphertexts(op, a, b);
  }

  lemma NoCiphertexts(op: BinOp, a: FheValue, b: FheValue)
    requires (a.Failed? || a.CppVector? || a.CppNumber?) && (b.Failed? || b.CppVector? || b.CppNumber?)
    ensures Eval(op, a, b).Failed?
  {}

  lemma WithNumber(op: BinOp, l: Expr, r: Expr, left: Fhe, right: Fhe, pl: Plain, pr: Plain, w: World)
    requires l.Encrypted() != r.Encrypted() && !l.IsVector() && !r.IsVector()
    requires Ready(l, left, pl, w) && Ready(r, right, pr, w)
    requires NumbersKept(op, RunPlain(pl, w), RunPlain(pr, w), w.n)
    ensures Ready(Binary(op, l, r), GenFheBinary(op, l, r, left, right), GenPlainBinary(op, l, r, pl, pr), w)
  {
    FheCalls(left, right, w);
    PlainCalls(pl, pr, w);
    hide Eval, Twin, NullsafeAdded, RunFhe, RunPlain, Encode, Larger, Smaller;
    var a, b, p, q := RunFhe(left, w), RunFhe(right, w), RunPlain(pl, w), RunPlain(pr, w);
    EvalKind(op, a, b);
    if !a.Failed? && !b.Failed? {
      EvalAgrees(op, if op == MulNoRelin then Mul else op, a, b, p, q, w.n);
    } else {
      EvalFails(op, a, b);
    }
  }

  lemma PackedReady(l: Expr, left: Fhe, pl: Plain, w: World)
    requires l.IsVector() && Ready(l, left, pl, w)
    ensures var f := RunFhe(PackedPlaintext(left), w);
      f.Failed? || (f.Encoded? && StandsEncoded(f, RunPlain(pl, w), w.n) && |RunPlain(pl, w).v| == Len(l, w))
  {
    var x := RunFhe(left, w);
    if x.CppVector? && |x.v| <= w.n { PackedStands(x, RunPlain(pl, w), w); }
  }

  function TwinOp(op: BinOp): BinOp {
    if op == MulNoRelin then Mul else op
  }

  /** What the code with one ciphertext operand runs. */
  lemma OneEncryptedPlain(op: BinOp, l: Expr, r: Expr, pl: Plain, pr: Plain, w: World)
    requires l.Encrypted() != r.Encrypted()
    ensures RunPlain(GenPlainBinary(op, l, r, pl, pr), w) == Twin(TwinOp(op), RunPlain(pl, w), RunPlain(pr, w))
  {
    PlainCalls(pl, pr, w);
    hide RunPlain, Twin;
  }

  lemma LeftVectorFhe(op: BinOp, l: Expr, r: Expr, left: Fhe, right: Fhe, w: World)
    requires l.IsVector() && r.Encrypted()
    ensures var a, b := RunFhe(PackedPlaintext(left), w), RunFhe(right, w);
      RunFhe(GenFheBinary(op, l, r, left, right), w)
        == if op == Add || op == Mul then Eval(op, b, a) else Eval(op, a, b)
  {
    FheCalls(PackedPlaintext(left), right, w);
    FheCalls(right, PackedPlaintext(left), w);
    hide RunFhe, Eval;
  }

  lemma RightVectorFhe(op: BinOp, l: Expr, r: Expr, left: Fhe, right: Fhe, w: World)
    requires l.Encrypted() && r.IsVector()
    ensures RunFhe(GenFheBinary(op, l, r, left, right), w)
         == Eval(op, RunFhe(left, w), RunFhe(PackedPlaintext(right), w))
  {
    FheCalls(left, PackedPlaintext(right), w);
    hide RunFhe, Eval;
  }

  lemma WithLeftVector(op: BinOp, l: Expr, r: Expr, left: Fhe, right: Fhe, pl: Plain, pr: Plain, w: World)
    requires l.IsVector() && r.Encrypted() && Ready(l, left, pl, w) && Ready(r, right, pr, w)
    ensures Ready(Binary(op, l, r), GenFheBinary(op, l, r, left, right), GenPlainBinary(op, l, r, pl, pr), w)
  {
    OneEncryptedPlain(op, l, r, pl, pr, w);
    LeftVectorFhe(op, l, r, left, right, w);
    PackedReady(l, left, pl, w);
    hide GenFheBinary, GenPlainBinary, Eval, Twin, Stands, RunFhe, RunPlain, Encode, Larger, Smaller;
    var a, b := RunFhe(PackedPlaintext(left), w), RunFhe(right, w);
    VectorOnLeft(op, TwinOp(op), a, b, RunPlain(pl, w), RunPlain(pr, w), w.n);
  }

  lemma WithRightVector(op: BinOp, l: Expr, r: Expr, left: Fhe, right: Fhe, pl: Plain, pr: Plain, w: World)
    requires l.Encrypted() && r.IsVector() && Ready(l, left, pl, w) && Ready(r, right, pr, w)
    ensures Ready(Binary(op, l, r), GenFheBinary(op, l, r, left, right), GenPlainBinary(op, l, r, pl, pr), w)
  {
    OneEncryptedPlain(op, l, r, pl, pr, w);
    RightVectorFhe(op, l, r, left, right, w);
    PackedReady(r, right, pr, w);
    hide GenFheBinary, GenPlainBinary, Eval, Twin, Stands, RunFhe, RunPlain, Encode, Larger, Smaller;
    var a, b := RunFhe(left, w), RunFhe(PackedPlaintext(right), w);
    VectorOnRight(op, TwinOp(op), a, b, RunPlain(pl, w), RunPlain(pr, w), w.n);
  }

  lemma VectorOnRight(op: BinOp, twin: BinOp, a: FheValue, b: FheValue, p: PlainValue, q: PlainValue, n: nat)
    requires TwinOf(op, twin) && (b.Failed? || (b.Encoded? && StandsEncoded(b, q, n)))
    requires a.Failed? || a.NullCipher? || a.Cipher?
    requires !a.Failed? ==> Stands(a, p, n)
    ensures Eval(op, a, b).Cipher? || Eval(op, a, b).Failed?
    ensures !Eval(op, a, b).Failed? ==> !a.Failed? && !b.Failed? && p.Slots? && q.Slots?
    ensures !Eval(op, a, b).Failed? ==> Stands(Eval(op, a, b), Twin(twin, p, q), n)
    ensures !Eval(op, a, b).Failed? ==> |Twin(twin, p, q).v| == BothLength(op, |p.v|, |q.v|)
  {
    hide Encode;
    EvalKind(op, a, b);
    if a.Failed? || b.Failed? {
      EvalFails(op, a, b);
    } else {
      EvalAgrees(op, twin, a, b, p, q, n);
    }
  }

  lemma VectorOnLeft(op: BinOp, twin: BinOp, a: FheValue, b: FheValue, p: PlainValue, q: PlainValue, n: nat)
    requires TwinOf(op, twin) && (a.Failed? || (a.Encoded? && StandsEncoded(a, p, n)))
    requires b.Failed? || b.NullCipher? || b.Cipher?
    requires !b.Failed? ==> Stands(b, q, n)
    ensures Eval(op, a, b).Cipher? || Eval(op, a, b).Failed?
    ensures !Eval(op, a, b).Failed? ==> !a.Failed? && !b.Failed? && p.Slots? && q.Slots?
    ensures !Eval(op, a, b).Failed? ==> Stands(Eval(op, a, b), Twin(twin, p, q), n)
    ensures !Eval(op, a, b).Failed? ==> |Twin(twin, p, q).v| == BothLength(op, |p.v|, |q.v|)
    ensures op != Sub ==> Eval(op, b, a) == Eval(op, a, b)
  {
    EvalKind(op, a, b);
    if a.Failed? || b.Failed? {
      EvalFails(op, a, b);
      EvalFails(op, b, a);
    } else {
      EvalAgrees(op, twin, a, b, p, q, n);
      if op != Sub && b.Cipher? { SwappedAgrees(op, b, a); }
    }
  }

  lemma BinaryReady(op: BinOp, l: Expr, r: Expr, left: Fhe, right: Fhe, pl: Plain, pr: Plain, w: World)
    requires Ready(l, left, pl, w) && Ready(r, right, pr, w)
    requires NumbersKept(op, RunPlain(pl, w), RunPlain(pr, w), w.n)
    ensures Ready(Binary(op, l, r), GenFheBinary(op, l, r, left, right), GenPlainBinary(op, l, r, pl, pr), w)
  {
    hide Ready, GenFheBinary, GenPlainBinary;
    if l.Encrypted() && r.Encrypted() {
      TwoCiphertexts(op, l, r, left, right, pl, pr, w);
    } else if !l.Encrypted() && !r.Encrypted() {
      TwoPlaintexts(op, l, r, left, right, pl, pr, w);
    } else if l.IsVector() {
      WithLeftVector(op, l, r, left, right, pl, pr, w);
    } else if r.IsVector() {
      WithRightVector(op, l, r, left, right, pl, pr, w);
    } else {
      WithNumber(op, l, r, left, right, pl, pr, w);
    }
  }

  lemma FheRotates(a: Fhe, k: int, w: World)
    ensures RunFhe(EvalRotate(a, k), w) == RotatedCipher(RunFhe(a, w), k)
  {
    hide Eval, NullSafe, OwnFhe, CtVar, Packed, RotatedCipher, NegatedCipher, SameCipher, TransformedCipher;
  }

  lemma PlainRotates(a: Plain, k: int, w: World)
    ensures RunPlain(RotateCall(a, k), w) == RotatedSlots(RunPlain(a, w), k)
  {
    hide Twin, NullsafeTwin, OwnPlain, SlotsOf, RotatedSlots, NegatedSlots, TransformedSlots;
  }

  lemma RotatedReady(a: Expr, k: int, fhe: Fhe, plain: Plain, w: World)
    requires w.n > 0 && Ready(a, fhe, plain, w) && RotationKept(Len(a, w), k, w.n)
    ensures Ready(Rotated(a, k), EvalRotate(fhe, k), RotateCall(plain, k), w)
  {
    FheRotates(fhe, k, w);
    PlainRotates(plain, k, w);
    hide RunFhe, RunPlain, Rotate, PlainSlots.Rotated, Encode, RotationKept;
    var x, p := RunFhe(fhe, w), RunPlain(plain, w);
    if x.Cipher? { RotationPads(p.v, k, w.n); }
  }

  lemma FheNegates(a: Fhe, w: World)
    ensures RunFhe(EvalNegate(a), w) == NegatedCipher(RunFhe(a, w))
  {
    hide Eval, NullSafe, OwnFhe, CtVar, Packed, RotatedCipher, NegatedCipher, SameCipher, TransformedCipher;
  }

  lemma PlainNegates(a: Plain, w: World)
    ensures RunPlain(NegateCall(a), w) == NegatedSlots(RunPlain(a, w))
  {
    hide Twin, NullsafeTwin, OwnPlain, SlotsOf, RotatedSlots, NegatedSlots, TransformedSlots;
  }

  lemma NegatedReady(a: Expr, fhe: Fhe, plain: Plain, w: World)
    requires Ready(a, fhe, plain, w)
    ensures Ready(Negated(a), EvalNegate(fhe), NegateCall(plain), w)
  {
    FheNegates(fhe, w);
    PlainNegates(plain, w);
    hide RunFhe, RunPlain, Mapped, Encode;
    var x, p := RunFhe(fhe, w), RunPlain(plain, w);
    if x.Cipher? { MappedExact(p.v, Minus, w.n); }
  }

  lemma FheTransforms(a: Fhe, d: string, bstep: nat, w: World)
    ensures RunFhe(NbLinearTransform(a, d, bstep), w) == TransformedCipher(RunFhe(a, w), d, bstep, w)
  {
    hide Eval, NullSafe, OwnFhe, CtVar, Packed, RotatedCipher, NegatedCipher, SameCipher, TransformedCipher;
  }

  lemma PlainTransforms(a: Plain, d: string, bstep: nat, w: World)
    ensures RunPlain(TransformCall(a, d, bstep), w) == TransformedSlots(RunPlain(a, w), d, bstep, w)
  {
    hide Twin, NullsafeTwin, OwnPlain, SlotsOf, RotatedSlots, NegatedSlots, TransformedSlots;
  }

  /** The transform's lengths are kept, unless there is no transform to run. */
  predicate DiagonalsKept(m: nat, d: string, bstep: nat, w: World)
    requires w.n > 0
  {
    d in w.diagonals && bstep > 0 && LT.Encodable(w.diagonals[d], w.n) ==>
      TransformKept(m, Lengths(w.diagonals[d]), bstep, w.n)
  }

  lemma TransformReady(a: Expr, d: string, bstep: nat, fhe: Fhe, plain: Plain, w: World)
    requires w.n > 0 && Ready(a, fhe, plain, w) && DiagonalsKept(Len(a, w), d, bstep, w)
    ensures Ready(LinearTransformed(a, d, bstep), NbLinearTransform(fhe, d, bstep), TransformCall(plain, d, bstep), w)
  {
    FheTransforms(fhe, d, bstep, w);
    PlainTransforms(plain, d, bstep, w);
    hide RunFhe, RunPlain, Transformed, Transform, LT.Encodable, TransformKept, Lengths, Longest, Encode;
    var x, p := RunFhe(fhe, w), RunPlain(plain, w);
    if d in w.diagonals { TransformFails(x, w.diagonals[d], bstep); }
    if x.Cipher? && d in w.diagonals && bstep > 0 && LT.Encodable(w.diagonals[d], w.n) {
      TransformAgrees(p.v, w.diagonals[d], bstep, w.n);
      TransformKind(x, w.diagonals[d], bstep);
    }
  }

  lemma TransformFails(x: FheValue, d: LT.Diagonals, bstep: nat)
    ensures !(x.Cipher? && bstep > 0 && LT.Encodable(d, |x.slots|)) ==> Transform(x, d, bstep).Failed?
  {}

  lemma TransformKind(x: FheValue, d: LT.Diagonals, bstep: nat)
    ensures var y := Transform(x, d, bstep); y.Cipher? || y.NullCipher? || y.Failed?
  {}

  /** Where the plain code cannot go wrong, from the lengths of the vectors that the
      expression names: a short vector is not rotated, a number is not added to it, and a
      transform does neither. Code that OpenFHE refuses is not compared. */
  predicate Sound(e: Expr, w: World)
    requires w.n > 0
  {
    RunFhe(GenFhe(e), w).Failed? ||
    match e
    case Ct(x) => x in w.cts && w.cts[x].Some? ==> |w.cts[x].value| == w.n
    case Vector(_) => true
    case Number(_) => true
    case Literal(_) => true
    case Binary(op, l, r) =>
      Sound(l, w) && Sound(r, w) && NumbersKept(op, RunPlain(GenPlain(l), w), RunPlain(GenPlain(r), w), w.n)
    case Rotated(a, k) => Sound(a, w) && RotationKept(Len(a, w), k, w.n)
    case Negated(a) => Sound(a, w)
    case Relin(a) => Sound(a, w)
    case Bootstrapped(a) => Sound(a, w)
    case LinearTransformed(a, d, bstep) => Sound(a, w) && DiagonalsKept(Len(a, w), d, bstep, w)
  }

  lemma FailedReady(e: Expr, fhe: Fhe, plain: Plain, w: World)
    requires RunFhe(fhe, w).Failed?
    ensures Ready(e, fhe, plain, w)
  {}

  /** Both modes of the compiler agree: whatever the OpenFHE code computes, the plain code
      computes the same slots up to a tail of zeros, and no tail when it has n of them. */
  lemma {:induction false} ModesAgree(e: Expr, w: World)
    requires w.n > 0 && Sound(e, w)
    ensures Ready(e, GenFhe(e), GenPlain(e), w)
    ensures RunFhe(GenFhe(e), w).Cipher? && Len(e, w) == w.n ==>
      RunPlain(GenPlain(e), w) == Slots(RunFhe(GenFhe(e), w).slots)
  {
    OneModeReady(e, w);
    hide RunFhe, RunPlain, GenFhe, GenPlain, Len;
    var f, p := RunFhe(GenFhe(e), w), RunPlain(GenPlain(e), w);
    if f.Cipher? && Len(e, w) == w.n { EncodeFull(p.v); }
  }

  lemma {:induction false} OneModeReady(e: Expr, w: World)
    requires w.n > 0 && Sound(e, w)
    ensures Ready(e, GenFhe(e), GenPlain(e), w)
  {
    hide GenFheBinary, GenPlainBinary, RotationKept, DiagonalsKept, NumbersKept;
    if RunFhe(GenFhe(e), w).Failed? {
      FailedReady(e, GenFhe(e), GenPlain(e), w);
    } else {
      match e
      case Binary(op, l, r) =>
        OneModeReady(l, w);
        OneModeReady(r, w);
        hide Ready;
        BinaryReady(op, l, r, GenFhe(l), GenFhe(r), GenPlain(l), GenPlain(r), w);
      case Rotated(a, k) =>
        OneModeReady(a, w);
        hide Ready;
        RotatedReady(a, k, GenFhe(a), GenPlain(a), w);
      case Negated(a) =>
        OneModeReady(a, w);
        hide Ready;
        NegatedReady(a, GenFhe(a), GenPlain(a), w);
      case Relin(a) => OneModeReady(a, w);
      case Bootstrapped(a) => OneModeReady(a, w);
      case LinearTransformed(a, d, bstep) =>
        OneModeReady(a, w);
        hide Ready;
        TransformReady(a, d, bstep, GenFhe(a), GenPlain(a), w);
      case Ct(x) => CtReady(x, w);
      case _ =>
    }
  }

  lemma CtReady(x: string, w: World)
    requires x in w.cts && w.cts[x].Some? ==> |w.cts[x].value| == w.n
    ensures Ready(Ct(x), FheVar(x), SlotsVar(x), w)
  {
    if x in w.cts && w.cts[x].Some? { EncodeFull(w.cts[x].value); }
  }

  // ----- expressions over full vectors -----

  predicate FullSet(d: LT.Diagonals, n: nat) {
    forall k :: 0 <= k < |d| ==> |d[k]| == n
  }

  /** Every vector that the expression names fills the slots. */
  predicate Filled(e: Expr, w: World) {
    match e
    case Ct(x) => x in w.cts && w.cts[x].Some? ==> |w.cts[x].value| == w.n
    case Vector(x) => x in w.vectors ==> |w.vectors[x]| == w.n
    case Number(_) => true
    case Literal(_) => true
    case Binary(_, l, r) => Filled(l, w) && Filled(r, w)
    case Rotated(a, _) => Filled(a, w)
    case Negated(a) => Filled(a, w)
    case Relin(a) => Filled(a, w)
    case Bootstrapped(a) => Filled(a, w)
    case LinearTransformed(a, d, _) => Filled(a, w) && (d in w.diagonals ==> FullSet(w.diagonals[d], w.n))
  }

  /** What the operands are when the code of a binary expression gives f: a number is
      combined with a ciphertext or another number, and else there are two vectors. */
  predicate Operands(op: BinOp, l: Expr, r: Expr, a: FheValue, b: FheValue, f: FheValue) {
    && !f.CppVector?
    && (!f.Failed? ==> !a.Failed? && !b.Failed?)
    && (!f.Failed? && IsNumber(l) ==> b.Cipher? || b.CppNumber?)
    && (!f.Failed? && IsNumber(r) ==> a.Cipher? || a.CppNumber?)
    && (f.Cipher? && IsNumber(l) ==> b.Cipher?)
    && (f.Cipher? && IsNumber(r) ==> a.Cipher?)
    && (f.Cipher? && !IsNumber(l) && !IsNumber(r) ==> WholeOrNull(op, a) && (b.Cipher? || b.CppVector?))
  }

  predicate WholeOrNull(op: BinOp, a: FheValue) {
    a.Cipher? || a.CppVector? || (op == Add && a.NullCipher?)
  }

  lemma EvalNeeds(op: BinOp, a: FheValue, b: FheValue)
    ensures !Eval(op, a, b).Failed? ==>
      (a.Cipher? && (b.Cipher? || b.Encoded? || b.CppNumber?)) || (b.Cipher? && (a.Encoded? || a.CppNumber?))
  {}

  lemma OperandsOf(op: BinOp, l: Expr, r: Expr, left: Fhe, right: Fhe, w: World)
    requires Kind(l, RunFhe(left, w)) && Kind(r, RunFhe(right, w))
    ensures Operands(op, l, r, RunFhe(left, w), RunFhe(right, w), RunFhe(GenFheBinary(op, l, r, left, right), w))
  {
    hide GenFheBinary, RunFhe, Operands;
    if l.Encrypted() == r.Encrypted() {
      LikeOperands(op, l, r, left, right, w);
    } else if !l.IsVector() && !r.IsVector() {
      NumberOperands(op, l, r, left, right, w);
    } else if l.IsVector() {
      LeftVectorOperands(op, l, r, left, right, w);
    } else {
      RightVectorOperands(op, l, r, left, right, w);
    }
  }

  lemma LikeOperands(op: BinOp, l: Expr, r: Expr, left: Fhe, right: Fhe, w: World)
    requires Kind(l, RunFhe(left, w)) && Kind(r, RunFhe(right, w)) && l.Encrypted() == r.Encrypted()
    ensures Operands(op, l, r, RunFhe(left, w), RunFhe(right, w), RunFhe(GenFheBinary(op, l, r, left, right), w))
  {
    FheCalls(left, right, w);
    OwnFheCall(op, left, right, w);
    hide RunFhe, Eval, Num;
    var a, b := RunFhe(left, w), RunFhe(right, w);
    EvalKind(op, a, b);
    EvalNeeds(op, a, b);
  }

  lemma NumberOperands(op: BinOp, l: Expr, r: Expr, left: Fhe, right: Fhe, w: World)
    requires Kind(l, RunFhe(left, w)) && Kind(r, RunFhe(right, w)) && l.Encrypted() != r.Encrypted()
    requires !l.IsVector() && !r.IsVector()
    ensures Operands(op, l, r, RunFhe(left, w), RunFhe(right, w), RunFhe(GenFheBinary(op, l, r, left, right), w))
  {
    FheCalls(left, right, w);
    hide RunFhe, Eval;
    var a, b := RunFhe(left, w), RunFhe(right, w);
    EvalKind(op, a, b);
    EvalNeeds(op, a, b);
  }

  lemma LeftVectorOperands(op: BinOp, l: Expr, r: Expr, left: Fhe, right: Fhe, w: World)
    requires l.IsVector() && r.Encrypted() && Kind(l, RunFhe(left, w)) && Kind(r, RunFhe(right, w))
    ensures Operands(op, l, r, RunFhe(left, w), RunFhe(right, w), RunFhe(GenFheBinary(op, l, r, left, right), w))
  {
    LeftVectorFhe(op, l, r, left, right, w);
    PackedCall(left, w);
    hide GenFheBinary, RunFhe, Eval, Encode;
    var c, b := Packed(RunFhe(left, w), w.n), RunFhe(right, w);
    EvalKind(op, c, b);
    EvalKind(op, b, c);
    EvalNeeds(op, c, b);
    EvalNeeds(op, b, c);
  }

  lemma RightVectorOperands(op: BinOp, l: Expr, r: Expr, left: Fhe, right: Fhe, w: World)
    requires l.Encrypted() && r.IsVector() && Kind(l, RunFhe(left, w)) && Kind(r, RunFhe(right, w))
    ensures Operands(op, l, r, RunFhe(left, w), RunFhe(right, w), RunFhe(GenFheBinary(op, l, r, left, right), w))
  {
    RightVectorFhe(op, l, r, left, right, w);
    PackedCall(right, w);
    hide GenFheBinary, RunFhe, Eval, Encode;
    var a, c := RunFhe(left, w), Packed(RunFhe(right, w), w.n);
    EvalKind(op, a, c);
    EvalNeeds(op, a, c);
  }

  lemma PackedCall(code: Fhe, w: World)
    ensures RunFhe(PackedPlaintext(code), w) == Packed(RunFhe(code, w), w.n)
  {}

  lemma {:induction false} LongestFull(d: LT.Diagonals, n: nat, base: nat, count: nat)
    requires FullSet(d, n) && base + count <= |d|
    ensures Longest(Lengths(d), base, count) == if count == 0 then 0 else n
  {
    hide Lengths;
    if count > 0 {
      LongestFull(d, n, base, count - 1);
      LengthAt(d, base + count - 1);
    }
  }

  lemma FullKept(m: nat, d: LT.Diagonals, bstep: nat, n: nat)
    requires n > 0 && bstep > 0 && (m == n || m == 0) && FullSet(d, n)
    ensures TransformKept(m, Lengths(d), bstep, n)
  {
    hide Lengths, Longest;
    forall k | 0 <= k < |d| ensures Kept(m, k % bstep, n, Lengths(d)[k]) {
      LengthAt(d, k);
      KeptClosed(m, k % bstep, n);
    }
    forall base | 0 <= base < |d| ensures RotationKept(StepLength(m, Lengths(d), bstep, base), base, n) {
      LongestFull(d, n, base, Smaller(bstep, |d| - base));
    }
  }

  /** Over full vectors the plain code goes wrong nowhere, and a ciphertext's twin is full. */
  lemma {:induction false} FullIsSound(e: Expr, w: World)
    requires w.n > 0 && Filled(e, w)
    ensures Sound(e, w) && (Len(e, w) == w.n || Len(e, w) == 0)
    ensures RunFhe(GenFhe(e), w).Cipher? || RunFhe(GenFhe(e), w).CppVector? ==> Len(e, w) == w.n
  {
    hide GenFheBinary, GenPlainBinary, Lengths, Longest, TransformKept, NumbersKept, FullSet, BinaryLen;
    match e
    case Binary(op, l, r) =>
      FullIsSound(l, w);
      FullIsSound(r, w);
      FullBinary(op, l, r, w);
    case Rotated(a, _) => FullIsSound(a, w);
    case Negated(a) => FullIsSound(a, w);
    case Relin(a) => FullIsSound(a, w);
    case Bootstrapped(a) => FullIsSound(a, w);
    case LinearTransformed(a, d, bstep) =>
      FullIsSound(a, w);
      FullTransform(a, d, bstep, w);
    case _ =>
  }

  lemma FullBinary(op: BinOp, l: Expr, r: Expr, w: World)
    requires w.n > 0 && Sound(l, w) && Sound(r, w)
    requires (Len(l, w) == w.n || Len(l, w) == 0) && (Len(r, w) == w.n || Len(r, w) == 0)
    requires RunFhe(GenFhe(l), w).Cipher? || RunFhe(GenFhe(l), w).CppVector? ==> Len(l, w) == w.n
    requires RunFhe(GenFhe(r), w).Cipher? || RunFhe(GenFhe(r), w).CppVector? ==> Len(r, w) == w.n
    ensures var f := RunFhe(GenFheBinary(op, l, r, GenFhe(l), GenFhe(r)), w);
      && (!f.Failed? ==> NumbersKept(op, RunPlain(GenPlain(l), w), RunPlain(GenPlain(r), w), w.n))
      && (f.Cipher? ==> BinaryLen(op, l, r, Len(l, w), Len(r, w)) == w.n)
      && !f.CppVector?
    ensures var m := BinaryLen(op, l, r, Len(l, w), Len(r, w)); m == w.n || m == 0
  {
    OneModeReady(l, w);
    OneModeReady(r, w);
    OperandsOf(op, l, r, GenFhe(l), GenFhe(r), w);
    hide *;
    FullOperands(op, l, r, RunFhe(GenFheBinary(op, l, r, GenFhe(l), GenFhe(r)), w), w);
  }

  lemma FullOperands(op: BinOp, l: Expr, r: Expr, f: FheValue, w: World)
    requires Ready(l, GenFhe(l), GenPlain(l), w) && Ready(r, GenFhe(r), GenPlain(r), w)
    requires Operands(op, l, r, RunFhe(GenFhe(l), w), RunFhe(GenFhe(r), w), f)
    requires (Len(l, w) == w.n || Len(l, w) == 0) && (Len(r, w) == w.n || Len(r, w) == 0)
    requires RunFhe(GenFhe(l), w).Cipher? || RunFhe(GenFhe(l), w).CppVector? ==> Len(l, w) == w.n
    requires RunFhe(GenFhe(r), w).Cipher? || RunFhe(GenFhe(r), w).CppVector? ==> Len(r, w) == w.n
    ensures !f.Failed? ==> NumbersKept(op, RunPlain(GenPlain(l), w), RunPlain(GenPlain(r), w), w.n)
    ensures f.Cipher? ==> BinaryLen(op, l, r, Len(l, w), Len(r, w)) == w.n
    ensures !f.CppVector?
    ensures var m := BinaryLen(op, l, r, Len(l, w), Len(r, w)); m == w.n || m == 0
  {
    hide RunFhe, RunPlain, GenFhe, GenPlain, Len, Encode;
  }

  lemma FullTransform(a: Expr, d: string, bstep: nat, w: World)
    requires w.n > 0 && Sound(a, w) && (d in w.diagonals ==> FullSet(w.diagonals[d], w.n))
    requires Len(a, w) == w.n || Len(a, w) == 0
    requires RunFhe(GenFhe(a), w).Cipher? ==> Len(a, w) == w.n
    ensures DiagonalsKept(Len(a, w), d, bstep, w)
    ensures var m := Len(LinearTransformed(a, d, bstep), w);
      (m == w.n || m == 0) && (TransformedCipher(RunFhe(GenFhe(a), w), d, bstep, w).Cipher? ==> m == w.n)
  {
    hide Lengths, Longest, TransformKept, LT.TermSum, LT.Encodable, Sound, RunFhe;
    if d in w.diagonals {
      var ds := w.diagonals[d];
      LongestFull(ds, w.n, 0, |ds|);
      if bstep > 0 { FullKept(Len(a, w), ds, bstep, w.n); }
    }
  }
}
