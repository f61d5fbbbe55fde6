/** The other direction of the analysis: when no chain of a run is over the depth that the
    analyzer has for it, so that every run over the maximum is reported. */
module DepthCovers {
  import opened Analyzer
  import opened ChebyshevDegree
  import opened Depth
  import opened DepthRuns
  import opened DepthReports

  // ----- one expression -----

  /** A type says at least what is so of a value. */
  predicate Covers(t: Ty, v: Val) {
    v.Chain() <= t.depth && (v.Cipher? ==> t.kind == Enc)
  }

  /** And exactly what is so. */
  predicate Exact(t: Ty, v: Val) {
    t.depth == v.Chain() && (t.kind == Enc <==> v.Cipher?)
  }

  function TyAt(x: string, scope: Scope): Ty {
    if x in scope then scope[x] else UNKNOWN
  }

  function ValAt(x: string, vals: Vals): Val {
    if x in vals then vals[x] else Plain
  }

  /** The operand whose type a sum keeps is the deeper one, and no product of ciphertexts
      is left without its level. */
  predicate Deeper(e: Expr, scope: Scope)
    decreases e, 0
  {
    match e
    case Binary(op, l, r) =>
      && Deeper(l, scope) && Deeper(r, scope)
      && (op != Compare && op != Times && CommonType(TypeOf(l, scope), TypeOf(r, scope)).kind == Enc ==>
            op != TimesNoRelin && Max(TypeOf(l, scope).depth, TypeOf(r, scope).depth) <= TypeOf(e, scope).depth)
    case Not(o) => Deeper(o, scope)
    case Negate(o) => Deeper(o, scope)
    case Cast(o, _) => Deeper(o, scope)
    case Chebyshev(_, args, _, _, _) => AllDeeper(args, scope)
    case Call(_, args, _) => AllDeeper(args, scope)
    case Opaque(_, parts) => AllDeeper(parts, scope)
    case _ => true
  }

  predicate AllDeeper(es: seq<Expr>, scope: Scope)
    decreases es, 0
  {
    |es| == 0 || (Deeper(es[0], scope) && AllDeeper(es[1..], scope))
  }

  /** What comes from outside the model, and what casts claim, is right in this way. */
  ghost predicate Told(e: Expr, vals: Vals, outside: Outside, right: (Ty, Val) -> bool)
    decreases e, 0
  {
    match e
    case Binary(_, l, r) => Told(l, vals, outside, right) && Told(r, vals, outside, right)
    case Not(o) => Told(o, vals, outside, right)
    case Negate(o) => Told(o, vals, outside, right)
    case Cast(o, target) => Told(o, vals, outside, right) && right(target, ValOf(o, vals, outside))
    case Chebyshev(id, args, _, degree, returned) =>
      AllTold(args, vals, outside, right) && (!(degree.Some? && degree.value > 0) ==> right(returned, outside(id)))
    case Call(id, args, returned) => AllTold(args, vals, outside, right) && right(returned, outside(id))
    case Opaque(id, parts) => AllTold(parts, vals, outside, right) && right(UNKNOWN, outside(id))
    case _ => true
  }

  ghost predicate AllTold(es: seq<Expr>, vals: Vals, outside: Outside, right: (Ty, Val) -> bool)
    decreases es, 0
  {
    |es| == 0 || (Told(es[0], vals, outside, right) && AllTold(es[1..], vals, outside, right))
  }

  const COVERED: (Ty, Val) -> bool := (t, v) => Covers(t, v)
  const EXACT: (Ty, Val) -> bool := (t, v) => Exact(t, v)

  /** A product's depth is more than either operand's, by one than the deeper one's. */
  lemma ProductDepth(l: Expr, r: Expr, scope: Scope)
    requires TypeOf(Binary(Times, l, r), scope).Encrypted()
    ensures var d := TypeOf(Binary(Times, l, r), scope).depth;
      var a, b := TypeOf(l, scope).depth, TypeOf(r, scope).depth;
      a < d && b < d && (d == a + 1 || d == b + 1)
    ensures TypeOf(Binary(Times, l, r), scope).depth in DepthsIn(Binary(Times, l, r), scope)
  {
    hide DepthsIn;
    var e := Binary(Times, l, r);
    var before := DepthsIn(l, scope) + DepthsIn(r, scope);
    assert DepthsIn(e, scope) == before + [TypeOf(e, scope).depth] by { ProductIsLast(l, r, scope); }
    assert DepthsIn(e, scope)[|before|] == TypeOf(e, scope).depth;
  }

  lemma ProductIsLast(l: Expr, r: Expr, scope: Scope)
    requires TypeOf(Binary(Times, l, r), scope).Encrypted()
    ensures var e := Binary(Times, l, r);
      DepthsIn(e, scope) == DepthsIn(l, scope) + DepthsIn(r, scope) + [TypeOf(e, scope).depth]
  {
    hide TypeOf;
  }

  lemma BinaryCovers(op: BinOp, l: Ty, r: Ty, u: Val, v: Val)
    requires Covers(l, u) && Covers(r, v)
    requires op != Compare && op != Times && CommonType(l, r).kind == Enc ==>
      op != TimesNoRelin && Max(l.depth, r.depth) <= BinaryType(op, l, r).depth
    ensures Covers(BinaryType(op, l, r), BinaryVal(op, u, v))
  {}

  lemma ChebyshevCovers(types: seq<Ty>, vals: seq<Val>, input: Option<nat>, more: nat)
    requires |types| == |vals| && forall i :: 0 <= i < |types| ==> Covers(types[i], vals[i])
    ensures Covers(Ty(Enc, true, InputDepth(types, input) + more), Cipher(InputVal(vals, input).Chain() + more))
  {}

  ghost predicate NamesCovered(names: set<string>, scope: Scope, vals: Vals) {
    forall x :: x in names ==> Covers(TyAt(x, scope), ValAt(x, vals))
  }

  /** What holds of a covered expression: its chains are at most its depths. */
  ghost predicate Capped(e: Expr, scope: Scope, vals: Vals, outside: Outside) {
    && Covers(TypeOf(e, scope), ValOf(e, vals, outside))
    && EachAtMost(ChainsIn(e, scope, vals, outside), DepthsIn(e, scope))
  }

  lemma {:induction false} ExprCovered(e: Expr, scope: Scope, vals: Vals, outside: Outside)
    requires NamesCovered(NamesOf(e), scope, vals) && Deeper(e, scope) && Told(e, vals, outside, COVERED)
    ensures Capped(e, scope, vals, outside)
    decreases e, 1
  {
    hide DepthForDegree, Covers, BinaryType, BinaryVal, ChebyshevType, EachAtMost, InputVal, InputDepth;
    match e
    case IntLit => PlainCovered(INT); NothingAtMost();
    case FloatLit => PlainCovered(FLOAT); NothingAtMost();
    case Ident(x) =>
      assert x in NamesOf(e);
      NothingAtMost();
    case Binary(_, _, _) => BinaryCovered(e, scope, vals, outside);
    case Not(o) =>
      ExprCovered(o, scope, vals, outside);
      PlainCovered(BOOL);
    case Negate(o) => ExprCovered(o, scope, vals, outside);
    case Cast(o, _) => ExprCovered(o, scope, vals, outside);
    case Chebyshev(_, _, _, _, _) => ChebyshevCovered(e, scope, vals, outside);
    case Call(_, args, _) => AllCovered(args, scope, vals, outside);
    case Opaque(_, parts) => AllCovered(parts, scope, vals, outside);
  }

  lemma PlainCovered(t: Ty)
    ensures Covers(t, Plain)
  {}

  lemma OneCovered(t: Ty, v: Val)
    requires Covers(t, v)
    ensures EachAtMost([v.Chain()], [t.depth])
  {}

  lemma {:induction false} BinaryCovered(e: Expr, scope: Scope, vals: Vals, outside: Outside)
    requires e.Binary? && NamesCovered(NamesOf(e), scope, vals) && Deeper(e, scope) && Told(e, vals, outside, COVERED)
    ensures Capped(e, scope, vals, outside)
    decreases e, 0
  {
    hide Covers, BinaryType, BinaryVal, EachAtMost, Val.Chain, CommonType;
    ExprCovered(e.left, scope, vals, outside);
    ExprCovered(e.right, scope, vals, outside);
    BinaryCovers(e.op, TypeOf(e.left, scope), TypeOf(e.right, scope),
                 ValOf(e.left, vals, outside), ValOf(e.right, vals, outside));
    var chains, depths := ChainsIn(e.left, scope, vals, outside), DepthsIn(e.left, scope);
    AtMostAppend(chains, depths, ChainsIn(e.right, scope, vals, outside), DepthsIn(e.right, scope));
    chains, depths := chains + ChainsIn(e.right, scope, vals, outside), depths + DepthsIn(e.right, scope);
    if e.op == Times && TypeOf(e, scope).Encrypted() {
      OneCovered(TypeOf(e, scope), ValOf(e, vals, outside));
      AtMostAppend(chains, depths, [ValOf(e, vals, outside).Chain()], [TypeOf(e, scope).depth]);
    } else {
      assert depths + [] == depths && chains + [] == chains;
    }
  }

  lemma {:induction false} ChebyshevCovered(e: Expr, scope: Scope, vals: Vals, outside: Outside)
    requires e.Chebyshev? && NamesCovered(NamesOf(e), scope, vals) && Deeper(e, scope)
    requires Told(e, vals, outside, COVERED)
    ensures Capped(e, scope, vals, outside)
    decreases e, 0
  {
    hide Covers, EachAtMost, DepthForDegree, Val.Chain, InputVal, InputDepth;
    AllCovered(e.args, scope, vals, outside);
    var chains, depths := ChainsInAll(e.args, scope, vals, outside), DepthsInAll(e.args, scope);
    if e.degree.Some? && e.degree.value > 0 {
      ChebyshevCovers(TypesOf(e.args, scope), ValsOf(e.args, vals, outside), e.input, DepthForDegree(e.degree.value));
      OneCovered(TypeOf(e, scope), ValOf(e, vals, outside));
      AtMostAppend(chains, depths, [ValOf(e, vals, outside).Chain()], [TypeOf(e, scope).depth]);
    } else {
      assert depths + [] == depths && chains + [] == chains;
    }
  }

  lemma {:induction false} AllCovered(es: seq<Expr>, scope: Scope, vals: Vals, outside: Outside)
    requires NamesCovered(NamesOfAll(es), scope, vals) && AllDeeper(es, scope) && AllTold(es, vals, outside, COVERED)
    ensures forall i :: 0 <= i < |es| ==> Covers(TypesOf(es, scope)[i], ValsOf(es, vals, outside)[i])
    ensures EachAtMost(ChainsInAll(es, scope, vals, outside), DepthsInAll(es, scope))
    decreases es, 0
  {
    hide Covers, EachAtMost;
    if |es| == 0 {
      NothingAtMost();
    } else {
      ExprCovered(es[0], scope, vals, outside);
      AllCovered(es[1..], scope, vals, outside);
      AtMostAppend(ChainsIn(es[0], scope, vals, outside), DepthsIn(es[0], scope),
                   ChainsInAll(es[1..], scope, vals, outside), DepthsInAll(es[1..], scope));
      forall i | 0 <= i < |es| ensures Covers(TypesOf(es, scope)[i], ValsOf(es, vals, outside)[i]) {
        if i > 0 {
          assert es[i] == es[1..][i - 1];
          assert Covers(TypesOf(es[1..], scope)[i - 1], ValsOf(es[1..], vals, outside)[i - 1]);
        }
      }
    }
  }

  // ----- exactly -----

  /** The type of every part of an expression is exactly what the part is worth. */
  ghost predicate AllExact(e: Expr, scope: Scope, vals: Vals, outside: Outside)
    decreases e, 0
  {
    && Exact(TypeOf(e, scope), ValOf(e, vals, outside))
    && match e
       case Binary(_, l, r) => AllExact(l, scope, vals, outside) && AllExact(r, scope, vals, outside)
       case Not(o) => AllExact(o, scope, vals, outside)
       case Negate(o) => AllExact(o, scope, vals, outside)
       case Cast(o, _) => AllExact(o, scope, vals, outside)
       case Chebyshev(_, args, _, _, _) => EachExact(args, scope, vals, outside)
       case Call(_, args, _) => EachExact(args, scope, vals, outside)
       case Opaque(_, parts) => EachExact(parts, scope, vals, outside)
       case _ => true
  }

  ghost predicate EachExact(es: seq<Expr>, scope: Scope, vals: Vals, outside: Outside)
    decreases es, 0
  {
    |es| == 0 || (AllExact(es[0], scope, vals, outside) && EachExact(es[1..], scope, vals, outside))
  }

  ghost predicate NamesExact(names: set<string>, scope: Scope, vals: Vals) {
    forall x :: x in names ==> Exact(TyAt(x, scope), ValAt(x, vals))
  }

  lemma BinaryExact(op: BinOp, l: Ty, r: Ty, u: Val, v: Val)
    requires Exact(l, u) && Exact(r, v)
    ensures Exact(BinaryType(op, l, r), BinaryVal(op, u, v)) <==>
      (op != Compare && op != Times && CommonType(l, r).kind == Enc ==>
         op != TimesNoRelin && Max(l.depth, r.depth) <= BinaryType(op, l, r).depth)
  {}

  lemma {:induction false} EachExactAt(es: seq<Expr>, scope: Scope, vals: Vals, outside: Outside)
    requires EachExact(es, scope, vals, outside)
    ensures forall i :: 0 <= i < |es| ==> Exact(TypesOf(es, scope)[i], ValsOf(es, vals, outside)[i])
  {
    hide Exact, TypeOf, ValOf;
    if |es| > 0 {
      EachExactAt(es[1..], scope, vals, outside);
      forall i | 0 <= i < |es| ensures Exact(TypesOf(es, scope)[i], ValsOf(es, vals, outside)[i]) {
        if i > 0 {
          assert es[i] == es[1..][i - 1];
          assert Exact(TypesOf(es[1..], scope)[i - 1], ValsOf(es[1..], vals, outside)[i - 1]);
        }
      }
    }
  }

  /** The depths are the chains, in an expression that is exact. */
  ghost predicate SameDepths(e: Expr, scope: Scope, vals: Vals, outside: Outside) {
    DepthsIn(e, scope) == ChainsIn(e, scope, vals, outside)
  }

  /** Where the types of the names are exact, so is every type in an expression if and only
      if every sum keeps its deeper operand's; and then the depths are the chains. */
  lemma {:induction false} ExactlyWhenDeeper(e: Expr, scope: Scope, vals: Vals, outside: Outside)
    requires NamesExact(NamesOf(e), scope, vals) && Told(e, vals, outside, EXACT)
    ensures AllExact(e, scope, vals, outside) <==> Deeper(e, scope)
    ensures Deeper(e, scope) ==> SameDepths(e, scope, vals, outside)
    decreases e, 0
  {
    hide DepthForDegree, Exact, BinaryType, BinaryVal, CommonType, ChebyshevType;
    match e
    case IntLit => PlainExact(INT);
    case FloatLit => PlainExact(FLOAT);
    case Ident(x) => assert x in NamesOf(e);
    case Binary(op, l, r) =>
      ExactlyWhenDeeper(l, scope, vals, outside);
      ExactlyWhenDeeper(r, scope, vals, outside);
      if Deeper(l, scope) && Deeper(r, scope) { OneBinary(op, l, r, scope, vals, outside); }
    case Not(o) =>
      ExactlyWhenDeeper(o, scope, vals, outside);
      PlainExact(BOOL);
    case Negate(o) =>
      ExactlyWhenDeeper(o, scope, vals, outside);
      if Deeper(o, scope) { ExactHere(o, scope, vals, outside); }
    case Cast(o, _) => ExactlyWhenDeeper(o, scope, vals, outside);
    case Chebyshev(_, args, _, _, _) =>
      EachWhenDeeper(args, scope, vals, outside);
      if AllDeeper(args, scope) { OneChebyshev(e, scope, vals, outside); }
    case Call(_, args, _) => EachWhenDeeper(args, scope, vals, outside);
    case Opaque(_, parts) => EachWhenDeeper(parts, scope, vals, outside);
  }

  lemma PlainExact(t: Ty)
    requires t.depth == 0 && t.kind != Enc
    ensures Exact(t, Plain)
  {}

  lemma ExactHere(e: Expr, scope: Scope, vals: Vals, outside: Outside)
    requires AllExact(e, scope, vals, outside)
    ensures Exact(TypeOf(e, scope), ValOf(e, vals, outside))
  {}

  lemma SameLevels(t: Ty, v: Val)
    requires Exact(t, v)
    ensures t.depth == v.Chain()
  {}

  lemma OneBinary(op: BinOp, l: Expr, r: Expr, scope: Scope, vals: Vals, outside: Outside)
    requires AllExact(l, scope, vals, outside) && AllExact(r, scope, vals, outside)
    requires SameDepths(l, scope, vals, outside) && SameDepths(r, scope, vals, outside)
    requires Deeper(l, scope) && Deeper(r, scope)
    ensures var e := Binary(op, l, r);
      && (Exact(TypeOf(e, scope), ValOf(e, vals, outside)) <==> Deeper(e, scope))
      && (Deeper(e, scope) ==> SameDepths(e, scope, vals, outside))
  {
    hide Exact, BinaryType, BinaryVal, CommonType;
    var e := Binary(op, l, r);
    ExactHere(l, scope, vals, outside);
    ExactHere(r, scope, vals, outside);
    BinaryExact(op, TypeOf(l, scope), TypeOf(r, scope), ValOf(l, vals, outside), ValOf(r, vals, outside));
    if Deeper(e, scope) { SameLevels(TypeOf(e, scope), ValOf(e, vals, outside)); }
  }

  lemma InputExact(types: seq<Ty>, vals: seq<Val>, input: Option<nat>, more: nat)
    requires |types| == |vals| && forall i :: 0 <= i < |types| ==> Exact(types[i], vals[i])
    ensures Exact(Ty(Enc, true, InputDepth(types, input) + more), Cipher(InputVal(vals, input).Chain() + more))
  {}

  lemma OneChebyshev(e: Expr, scope: Scope, vals: Vals, outside: Outside)
    requires e.Chebyshev? && EachExact(e.args, scope, vals, outside) && Told(e, vals, outside, EXACT)
    requires DepthsInAll(e.args, scope) == ChainsInAll(e.args, scope, vals, outside)
    ensures Exact(TypeOf(e, scope), ValOf(e, vals, outside)) && SameDepths(e, scope, vals, outside)
  {
    hide Exact, DepthForDegree, EachExact, DepthsInAll, ChainsInAll, InputDepth, InputVal, AllTold;
    EachExactAt(e.args, scope, vals, outside);
    if e.degree.Some? && e.degree.value > 0 {
      InputExact(TypesOf(e.args, scope), ValsOf(e.args, vals, outside), e.input, DepthForDegree(e.degree.value));
      SameLevels(TypeOf(e, scope), ValOf(e, vals, outside));
    }
  }

  lemma {:induction false} EachWhenDeeper(es: seq<Expr>, scope: Scope, vals: Vals, outside: Outside)
    requires NamesExact(NamesOfAll(es), scope, vals) && AllTold(es, vals, outside, EXACT)
    ensures EachExact(es, scope, vals, outside) <==> AllDeeper(es, scope)
    ensures AllDeeper(es, scope) ==> DepthsInAll(es, scope) == ChainsInAll(es, scope, vals, outside)
    decreases es, 0
  {
    hide AllExact, Deeper, Exact, TypeOf, ValOf;
    if |es| > 0 {
      ExactlyWhenDeeper(es[0], scope, vals, outside);
      EachWhenDeeper(es[1..], scope, vals, outside);
    }
  }

  // ----- what a run comes to -----

  /** A run that comes to an expression whose names are exact, and finds a chain over the
      maximum in it, is reported, at the very depth of the chain. */
  lemma ChainIsReported(ss: seq<Stmt>, scope: Scope, frames: Frames, scripts: seq<Script>, limit: nat, v: Visit,
          chain: nat)
    requires v in VisitsAll(ss, scope, frames, scripts) && NamesExact(NamesOf(v.e), v.scope, v.vals)
    requires Told(v.e, v.vals, v.outside, EXACT) && Deeper(v.e, v.scope)
    requires chain in ChainsIn(v.e, v.scope, v.vals, v.outside) && chain > limit
    ensures chain in Over(limit, BlockDepths(ss, scope))
  {
    hide Over, BlockDepths, VisitsAll, ChainsIn, DepthsIn, Told, Deeper, NamesExact, NamesOf, AllExact;
    ExactlyWhenDeeper(v.e, v.scope, v.vals, v.outside);
    ExcessIsReported(ss, scope, frames, scripts, limit, v, chain);
  }

  // ----- a sum that keeps the shallower operand -----

  const A: Expr := Ident("a")
  const SQUARE: Expr := Binary(Times, A, A)

  /** (a + a * a) * a: the sum has a's own depth, so the analyzer counts one level for two. */
  const SHALLOW: Expr := Binary(Times, Binary(PlusMinusOver, A, SQUARE), A)

  lemma SumKeepsShallower(outside: Outside)
    ensures var scope: Scope, vals: Vals := map["a" := Ty(Enc, true, 0)], map["a" := Cipher(0)];
      && TypeOf(SHALLOW, scope).depth == 1 && ValOf(SHALLOW, vals, outside) == Cipher(2)
      && NamesExact(NamesOf(SHALLOW), scope, vals) && Told(SHALLOW, vals, outside, EXACT) && !Deeper(SHALLOW, scope)
  {
    var scope: Scope, vals: Vals := map["a" := Ty(Enc, true, 0)], map["a" := Cipher(0)];
    var sum := Binary(PlusMinusOver, A, SQUARE);
    assert TypeOf(A, scope) == Ty(Enc, true, 0) && ValOf(A, vals, outside) == Cipher(0);
    assert TypeOf(SQUARE, scope) == Ty(Enc, true, 1) && ValOf(SQUARE, vals, outside) == Cipher(1);
    assert TypeOf(sum, scope) == Ty(Enc, true, 0) && ValOf(sum, vals, outside) == Cipher(1);
    assert !Deeper(sum, scope);
    assert NamesOf(SQUARE) == {"a"} && NamesOf(sum) == {"a"} && NamesOf(SHALLOW) == {"a"};
    assert Told(SQUARE, vals, outside, EXACT) && Told(sum, vals, outside, EXACT);
  }
}
