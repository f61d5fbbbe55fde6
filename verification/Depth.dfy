/** What the analyzer takes the multiplicative depth of an expression to be, and the
    longest chain of encrypted multiplications a run really puts under it. */
module Depth {
  import opened ChebyshevDegree

  datatype Option<+T> = None | Some(value: T)

  // ----- expressions -----

  datatype BinOp = Times | TimesNoRelin | PlusMinusOver | Power | Compare

  /** A call's id stands for which call it is. A chebyshev call has its arguments, which of
      them its second positional one is, and its degree when that is known. */
  datatype Expr =
    | IntLit
    | FloatLit
    | Ident(name: string)
    | Binary(op: BinOp, left: Expr, right: Expr)
    | Not(operand: Expr)
    | Negate(operand: Expr)
    | Cast(expr: Expr, target: Ty)
    | Chebyshev(id: nat, args: seq<Expr>, input: Option<nat>, degree: Option<nat>, returned: Ty)
    | Call(id: nat, args: seq<Expr>, returned: Ty)
    | Opaque(id: nat, parts: seq<Expr>)

  // ----- types -----

  datatype Kind = Enc | Float | Int | Bool | Unknown | Vec

  /** A type, as far as depth goes. `hidden` is an encrypted type inside another. */
  datatype Ty = Ty(kind: Kind, hidden: bool, depth: nat)
  {
    predicate Encrypted() { kind == Enc || hidden }
  }

  const FLOAT: Ty := Ty(Float, false, 0)
  const INT: Ty := Ty(Int, false, 0)
  const BOOL: Ty := Ty(Bool, false, 0)
  const UNKNOWN: Ty := Ty(Unknown, false, 0)

  function Max(a: nat, b: nat): nat {
    if a < b then b else a
  }

  /** common_type: an encrypted operand's own type, the left one's first. */
  function CommonType(a: Ty, b: Ty): Ty {
    if a.kind == Enc then a
    else if b.kind == Enc then b
    else if a.kind == Float || b.kind == Float then FLOAT
    else if a.kind == Int && b.kind == Int then INT
    else UNKNOWN
  }

  type Scope = map<string, Ty>

  function BinaryType(op: BinOp, l: Ty, r: Ty): Ty {
    if op == Compare then BOOL
    else
      var result := CommonType(l, r);
      if op == Times && result.Encrypted() then result.(depth := Max(l.depth, r.depth) + 1) else result
  }

  function InputDepth(args: seq<Ty>, input: Option<nat>): nat {
    if input.Some? && input.value < |args| then args[input.value].depth else 0
  }

  function ChebyshevType(args: seq<Ty>, input: Option<nat>, degree: Option<nat>, returned: Ty): Ty {
    if degree.Some? && degree.value > 0 then Ty(Enc, true, InputDepth(args, input) + DepthForDegree(degree.value))
    else returned
  }

  /** _check_expr */
  function TypeOf(e: Expr, scope: Scope): Ty
    decreases e, 0
  {
    match e
    case IntLit => INT
    case FloatLit => FLOAT
    case Ident(x) => if x in scope then scope[x] else UNKNOWN
    case Binary(op, l, r) => BinaryType(op, TypeOf(l, scope), TypeOf(r, scope))
    case Not(_) => BOOL
    case Negate(o) => TypeOf(o, scope)
    case Cast(_, target) => target
    case Chebyshev(_, args, input, degree, returned) => ChebyshevType(TypesOf(args, scope), input, degree, returned)
    case Call(_, _, returned) => returned
    case Opaque(_, _) => UNKNOWN
  }

  function TypesOf(es: seq<Expr>, scope: Scope): (r: seq<Ty>)
    ensures |r| == |es| && forall i :: 0 <= i < |es| ==> r[i] == TypeOf(es[i], scope)
    decreases es, 0
  {
    if |es| == 0 then [] else [TypeOf(es[0], scope)] + TypesOf(es[1..], scope)
  }

  // ----- the depths that are reported -----

  function DepthsInAll(es: seq<Expr>, scope: Scope): seq<nat>
    decreases es, 1
  {
    if |es| == 0 then [] else DepthsIn(es[0], scope) + DepthsInAll(es[1..], scope)
  }

  /** The depths of the modelled operations of an expression, in the order they are met. */
  function DepthsIn(e: Expr, scope: Scope): seq<nat>
    decreases e, 1
  {
    match e
    case Binary(op, l, r) =>
      DepthsIn(l, scope) + DepthsIn(r, scope) +
      (if op == Times && TypeOf(e, scope).Encrypted() then [TypeOf(e, scope).depth] else [])
    case Not(o) => DepthsIn(o, scope)
    case Negate(o) => DepthsIn(o, scope)
    case Cast(o, _) => DepthsIn(o, scope)
    case Chebyshev(_, args, _, degree, _) =>
      DepthsInAll(args, scope) + (if degree.Some? && degree.value > 0 then [TypeOf(e, scope).depth] else [])
    case Call(_, args, _) => DepthsInAll(args, scope)
    case Opaque(_, parts) => DepthsInAll(parts, scope)
    case _ => []
  }

  // ----- what a run computes -----

  /** A value: in the clear, or a ciphertext with its longest chain of multiplications. */
  datatype Val = Plain | Cipher(levels: nat)
  {
    function Chain(): nat {
      if Cipher? then levels else 0
    }
  }

  type Vals = map<string, Val>

  /** What calls and constructs outside the model return. */
  type Outside = nat -> Val

  function Grown(l: Val, r: Val, more: nat): Val {
    if l.Cipher? || r.Cipher? then Cipher(Max(l.Chain(), r.Chain()) + more) else Plain
  }

  function BinaryVal(op: BinOp, l: Val, r: Val): Val {
    if op == Compare then Plain
    else Grown(l, r, if op == Times || op == TimesNoRelin then 1 else 0)
  }

  function InputVal(args: seq<Val>, input: Option<nat>): Val {
    if input.Some? && input.value < |args| then args[input.value] else Plain
  }

  function ValOf(e: Expr, vals: Vals, outside: Outside): Val
    decreases e, 0
  {
    match e
    case IntLit => Plain
    case FloatLit => Plain
    case Ident(x) => if x in vals then vals[x] else Plain
    case Binary(op, l, r) => BinaryVal(op, ValOf(l, vals, outside), ValOf(r, vals, outside))
    case Not(_) => Plain
    case Negate(o) => ValOf(o, vals, outside)
    case Cast(o, _) => ValOf(o, vals, outside)
    case Chebyshev(id, args, input, degree, _) =>
      if degree.Some? && degree.value > 0 then
        Cipher(InputVal(ValsOf(args, vals, outside), input).Chain() + DepthForDegree(degree.value))
      else outside(id)
    case Call(id, _, _) => outside(id)
    case Opaque(id, _) => outside(id)
  }

  function ValsOf(es: seq<Expr>, vals: Vals, outside: Outside): (r: seq<Val>)
    ensures |r| == |es| && forall i :: 0 <= i < |es| ==> r[i] == ValOf(es[i], vals, outside)
    decreases es, 0
  {
    if |es| == 0 then [] else [ValOf(es[0], vals, outside)] + ValsOf(es[1..], vals, outside)
  }

  /** The chains of the same operations, when the expression is evaluated. */
  function ChainsInAll(es: seq<Expr>, scope: Scope, vals: Vals, outside: Outside): seq<nat>
    decreases es, 1
  {
    if |es| == 0 then [] else ChainsIn(es[0], scope, vals, outside) + ChainsInAll(es[1..], scope, vals, outside)
  }

  function ChainsIn(e: Expr, scope: Scope, vals: Vals, outside: Outside): seq<nat>
    decreases e, 1
  {
    match e
    case Binary(op, l, r) =>
      ChainsIn(l, scope, vals, outside) + ChainsIn(r, scope, vals, outside) +
      (if op == Times && TypeOf(e, scope).Encrypted() then [ValOf(e, vals, outside).Chain()] else [])
    case Not(o) => ChainsIn(o, scope, vals, outside)
    case Negate(o) => ChainsIn(o, scope, vals, outside)
    case Cast(o, _) => ChainsIn(o, scope, vals, outside)
    case Chebyshev(_, args, _, degree, _) =>
      ChainsInAll(args, scope, vals, outside) +
      (if degree.Some? && degree.value > 0 then [ValOf(e, vals, outside).Chain()] else [])
    case Call(_, args, _) => ChainsInAll(args, scope, vals, outside)
    case Opaque(_, parts) => ChainsInAll(parts, scope, vals, outside)
    case _ => []
  }

  // ----- the least a value can be -----

  /** A type says no more of a value than is so. */
  predicate Fits(t: Ty, v: Val) {
    t.depth <= v.Chain() && (t.kind == Enc ==> v.Cipher?)
  }

  /** A value in the clear is below every ciphertext. */
  predicate AtMost(u: Val, v: Val) {
    u.Plain? || (v.Cipher? && u.levels <= v.levels)
  }

  function Higher(u: Val, v: Val): Val {
    if AtMost(u, v) then v else u
  }

  function Lower(u: Val, v: Val): Val {
    if AtMost(u, v) then u else v
  }

  /** The least value a type fits. */
  function Least(t: Ty): Val {
    if t.kind == Enc || t.depth > 0 then Cipher(t.depth) else Plain
  }

  lemma FitsTheLeast(t: Ty, v: Val)
    ensures Fits(t, v) <==> AtMost(Least(t), v)
  {}

  /** The least an expression can be worth when its names are worth at least this much: a
      call is worth what its type says, and a cast as much as its target says. */
  function LowOf(e: Expr, low: Vals): Val
    decreases e, 0
  {
    match e
    case IntLit => Plain
    case FloatLit => Plain
    case Ident(x) => if x in low then low[x] else Plain
    case Binary(op, l, r) => BinaryVal(op, LowOf(l, low), LowOf(r, low))
    case Not(_) => Plain
    case Negate(o) => LowOf(o, low)
    case Cast(o, target) => Higher(Least(target), LowOf(o, low))
    case Chebyshev(_, args, input, degree, returned) =>
      if degree.Some? && degree.value > 0 then
        Cipher(InputVal(LowsOf(args, low), input).Chain() + DepthForDegree(degree.value))
      else Least(returned)
    case Call(_, _, returned) => Least(returned)
    case Opaque(_, _) => Plain
  }

  function LowsOf(es: seq<Expr>, low: Vals): (r: seq<Val>)
    ensures |r| == |es| && forall i :: 0 <= i < |es| ==> r[i] == LowOf(es[i], low)
    decreases es, 0
  {
    if |es| == 0 then [] else [LowOf(es[0], low)] + LowsOf(es[1..], low)
  }

  /** The least chains of the operations whose depths are reported. */
  function LowChainsInAll(es: seq<Expr>, scope: Scope, low: Vals): seq<nat>
    decreases es, 1
  {
    if |es| == 0 then [] else LowChainsIn(es[0], scope, low) + LowChainsInAll(es[1..], scope, low)
  }

  function LowChainsIn(e: Expr, scope: Scope, low: Vals): seq<nat>
    decreases e, 1
  {
    match e
    case Binary(op, l, r) =>
      LowChainsIn(l, scope, low) + LowChainsIn(r, scope, low) +
      (if op == Times && TypeOf(e, scope).Encrypted() then [LowOf(e, low).Chain()] else [])
    case Not(o) => LowChainsIn(o, scope, low)
    case Negate(o) => LowChainsIn(o, scope, low)
    case Cast(o, _) => LowChainsIn(o, scope, low)
    case Chebyshev(_, args, _, degree, _) =>
      LowChainsInAll(args, scope, low) +
      (if degree.Some? && degree.value > 0 then [LowOf(e, low).Chain()] else [])
    case Call(_, args, _) => LowChainsInAll(args, scope, low)
    case Opaque(_, parts) => LowChainsInAll(parts, scope, low)
    case _ => []
  }

  /** Types from outside the model are right about being encrypted, and carry no more depth
      than there is. */
  predicate Typed(e: Expr, vals: Vals, outside: Outside)
    decreases e, 0
  {
    match e
    case Binary(_, l, r) => Typed(l, vals, outside) && Typed(r, vals, outside)
    case Not(o) => Typed(o, vals, outside)
    case Negate(o) => Typed(o, vals, outside)
    case Cast(o, target) => Typed(o, vals, outside) && Fits(target, ValOf(o, vals, outside))
    case Chebyshev(id, args, _, degree, returned) =>
      AllTyped(args, vals, outside) && (!(degree.Some? && degree.value > 0) ==> Fits(returned, outside(id)))
    case Call(id, args, returned) => AllTyped(args, vals, outside) && Fits(returned, outside(id))
    case Opaque(_, parts) => AllTyped(parts, vals, outside)
    case _ => true
  }

  predicate AllTyped(es: seq<Expr>, vals: Vals, outside: Outside)
    decreases es, 0
  {
    |es| == 0 || (Typed(es[0], vals, outside) && AllTyped(es[1..], vals, outside))
  }

  predicate EachAtMost(a: seq<nat>, b: seq<nat>) {
    |a| == |b| && forall i :: 0 <= i < |a| ==> a[i] <= b[i]
  }

  lemma AtMostAppend(a: seq<nat>, b: seq<nat>, c: seq<nat>, d: seq<nat>)
    requires EachAtMost(a, b) && EachAtMost(c, d)
    ensures EachAtMost(a + c, b + d)
  {}

  lemma AtMostTrans(a: seq<nat>, b: seq<nat>, c: seq<nat>)
    requires EachAtMost(a, b) && EachAtMost(b, c)
    ensures EachAtMost(a, c)
  {}

  lemma NothingAtMost()
    ensures EachAtMost([], [])
  {}

  lemma OneAtMost(u: Val, v: Val)
    requires AtMost(u, v)
    ensures EachAtMost([u.Chain()], [v.Chain()])
  {}

  /** Every name is worth at least as much. */
  predicate Under(low: Vals, vals: Vals) {
    forall x :: x in low ==> AtMost(low[x], if x in vals then vals[x] else Plain)
  }

  lemma BinaryGrows(op: BinOp, l: Val, r: Val, u: Val, v: Val)
    requires AtMost(l, u) && AtMost(r, v)
    ensures AtMost(BinaryVal(op, l, r), BinaryVal(op, u, v))
  {}

  lemma CastGrows(target: Ty, l: Val, v: Val)
    requires AtMost(l, v) && Fits(target, v)
    ensures AtMost(Higher(Least(target), l), v)
  {}

  lemma InputGrows(lows: seq<Val>, vals: seq<Val>, input: Option<nat>, more: nat)
    requires |lows| == |vals| && forall i :: 0 <= i < |lows| ==> AtMost(lows[i], vals[i])
    ensures AtMost(Cipher(InputVal(lows, input).Chain() + more), Cipher(InputVal(vals, input).Chain() + more))
  {}

  // ----- a run is above the least -----

  predicate Above(e: Expr, scope: Scope, low: Vals, vals: Vals, outside: Outside) {
    && AtMost(LowOf(e, low), ValOf(e, vals, outside))
    && EachAtMost(LowChainsIn(e, scope, low), ChainsIn(e, scope, vals, outside))
  }

  /** Whatever a run computes is worth at least what the least values make of it. */
  lemma {:induction false} RunsAbove(e: Expr, scope: Scope, low: Vals, vals: Vals, outside: Outside)
    requires Under(low, vals) && Typed(e, vals, outside)
    ensures Above(e, scope, low, vals, outside)
    decreases e, 1
  {
    hide DepthForDegree, Fits, AtMost, BinaryVal, EachAtMost, Under, Least, Higher, InputVal;
    match e
    case IntLit => LiteralAbove(e, scope, low, vals, outside);
    case FloatLit => LiteralAbove(e, scope, low, vals, outside);
    case Ident(x) => NameAbove(x, scope, low, vals, outside);
    case Binary(_, _, _) => BinaryAbove(e, scope, low, vals, outside);
    case Not(o) =>
      RunsAbove(o, scope, low, vals, outside);
      LiteralAbove(IntLit, scope, low, vals, outside);
    case Negate(o) => RunsAbove(o, scope, low, vals, outside);
    case Cast(o, target) =>
      RunsAbove(o, scope, low, vals, outside);
      CastGrows(target, LowOf(o, low), ValOf(o, vals, outside));
    case Chebyshev(_, _, _, _, _) => ChebyshevAbove(e, scope, low, vals, outside);
    case Call(id, args, returned) =>
      AllAbove(args, scope, low, vals, outside);
      FitsTheLeast(returned, outside(id));
    case Opaque(id, parts) =>
      AllAbove(parts, scope, low, vals, outside);
      PlainAtMost(outside(id));
  }

  lemma PlainAtMost(v: Val)
    ensures AtMost(Plain, v)
  {}

  lemma LiteralAbove(e: Expr, scope: Scope, low: Vals, vals: Vals, outside: Outside)
    requires e == IntLit || e == FloatLit
    ensures Above(e, scope, low, vals, outside)
  {}

  lemma NameAbove(x: string, scope: Scope, low: Vals, vals: Vals, outside: Outside)
    requires Under(low, vals)
    ensures Above(Ident(x), scope, low, vals, outside)
  {}

  lemma {:induction false} BinaryAbove(e: Expr, scope: Scope, low: Vals, vals: Vals, outside: Outside)
    requires e.Binary? && Under(low, vals) && Typed(e, vals, outside)
    ensures Above(e, scope, low, vals, outside)
    decreases e, 0
  {
    hide AtMost, BinaryVal, EachAtMost, Under, Val.Chain;
    RunsAbove(e.left, scope, low, vals, outside);
    RunsAbove(e.right, scope, low, vals, outside);
    BinaryGrows(e.op, LowOf(e.left, low), LowOf(e.right, low), ValOf(e.left, vals, outside),
        ValOf(e.right, vals, outside));
    var lows, chains := LowChainsIn(e.left, scope, low), ChainsIn(e.left, scope, vals, outside);
    AtMostAppend(lows, chains, LowChainsIn(e.right, scope, low), ChainsIn(e.right, scope, vals, outside));
    lows, chains := lows + LowChainsIn(e.right, scope, low), chains + ChainsIn(e.right, scope, vals, outside);
    if e.op == Times && TypeOf(e, scope).Encrypted() {
      OneAtMost(LowOf(e, low), ValOf(e, vals, outside));
      AtMostAppend(lows, chains, [LowOf(e, low).Chain()], [ValOf(e, vals, outside).Chain()]);
    } else {
      assert lows + [] == lows && chains + [] == chains;
    }
  }

  lemma {:induction false} ChebyshevAbove(e: Expr, scope: Scope, low: Vals, vals: Vals, outside: Outside)
    requires e.Chebyshev? && Under(low, vals) && Typed(e, vals, outside)
    ensures Above(e, scope, low, vals, outside)
    decreases e, 0
  {
    hide AtMost, EachAtMost, Under, Val.Chain, DepthForDegree, InputVal, Fits, Least;
    AllAbove(e.args, scope, low, vals, outside);
    var lows, chains := LowChainsInAll(e.args, scope, low), ChainsInAll(e.args, scope, vals, outside);
    if e.degree.Some? && e.degree.value > 0 {
      InputGrows(LowsOf(e.args, low), ValsOf(e.args, vals, outside), e.input, DepthForDegree(e.degree.value));
      OneAtMost(LowOf(e, low), ValOf(e, vals, outside));
      AtMostAppend(lows, chains, [LowOf(e, low).Chain()], [ValOf(e, vals, outside).Chain()]);
    } else {
      FitsTheLeast(e.returned, outside(e.id));
      assert lows + [] == lows && chains + [] == chains;
    }
  }

  lemma {:induction false} AllAbove(es: seq<Expr>, scope: Scope, low: Vals, vals: Vals, outside: Outside)
    requires Under(low, vals) && AllTyped(es, vals, outside)
    ensures forall i :: 0 <= i < |es| ==> AtMost(LowsOf(es, low)[i], ValsOf(es, vals, outside)[i])
    ensures EachAtMost(LowChainsInAll(es, scope, low), ChainsInAll(es, scope, vals, outside))
    decreases es, 0
  {
    hide AtMost, EachAtMost, Under;
    if |es| == 0 {
      NothingAtMost();
    } else {
      RunsAbove(es[0], scope, low, vals, outside);
      AllAbove(es[1..], scope, low, vals, outside);
      AtMostAppend(LowChainsIn(es[0], scope, low), ChainsIn(es[0], scope, vals, outside),
                   LowChainsInAll(es[1..], scope, low), ChainsInAll(es[1..], scope, vals, outside));
      forall i | 0 <= i < |es| ensures AtMost(LowsOf(es, low)[i], ValsOf(es, vals, outside)[i]) {
        if i > 0 {
          assert es[i] == es[1..][i - 1] && AtMost(LowsOf(es[1..], low)[i - 1], ValsOf(es[1..], vals, outside)[i - 1]);
        }
      }
    }
  }

  // ----- depths are at most the least -----

  /** Every name of the expression is worth at least what its type says. */
  predicate NamesFit(e: Expr, scope: Scope, vals: Vals) {
    forall x :: x in NamesOf(e) && x in scope ==> x in vals && Fits(scope[x], vals[x])
  }

  function NamesOf(e: Expr): set<string>
    decreases e, 0
  {
    match e
    case Ident(x) => {x}
    case Binary(_, l, r) => NamesOf(l) + NamesOf(r)
    case Not(o) => NamesOf(o)
    case Negate(o) => NamesOf(o)
    case Cast(o, _) => NamesOf(o)
    case Chebyshev(_, args, _, _, _) => NamesOfAll(args)
    case Call(_, args, _) => NamesOfAll(args)
    case Opaque(_, parts) => NamesOfAll(parts)
    case _ => {}
  }

  function NamesOfAll(es: seq<Expr>): set<string>
    decreases es, 0
  {
    if |es| == 0 then {} else NamesOf(es[0]) + NamesOfAll(es[1..])
  }

  /** The analyzer's depths, of the expression and of every operation in it, are at most
      what the least values make of it. */
  predicate LowHolds(e: Expr, scope: Scope, low: Vals) {
    && Fits(TypeOf(e, scope), LowOf(e, low))
    && EachAtMost(DepthsIn(e, scope), LowChainsIn(e, scope, low))
  }

  lemma BinaryFits(op: BinOp, l: Ty, r: Ty, u: Val, v: Val)
    requires Fits(l, u) && Fits(r, v)
    ensures Fits(BinaryType(op, l, r), BinaryVal(op, u, v))
  {}

  lemma CastFits(target: Ty, v: Val)
    ensures Fits(target, Higher(Least(target), v))
  {}

  lemma ChebyshevFits(types: seq<Ty>, lows: seq<Val>, input: Option<nat>, more: nat)
    requires |types| == |lows| && forall i :: 0 <= i < |types| ==> Fits(types[i], lows[i])
    ensures Fits(Ty(Enc, true, InputDepth(types, input) + more), Cipher(InputVal(lows, input).Chain() + more))
  {}

  lemma {:induction false} NamesEnough(e: Expr, scope: Scope, low: Vals)
    requires NamesFit(e, scope, low)
    ensures LowHolds(e, scope, low)
    decreases e, 1
  {
    hide DepthForDegree, Fits, BinaryType, BinaryVal, ChebyshevType, EachAtMost, Least, Higher, InputVal, InputDepth;
    match e
    case IntLit => PlainFits(INT); NothingAtMost();
    case FloatLit => PlainFits(FLOAT); NothingAtMost();
    case Ident(x) =>
      assert x in NamesOf(e);
      UnknownFits(if x in low then low[x] else Plain);
      NothingAtMost();
    case Binary(_, _, _) => BinaryEnough(e, scope, low);
    case Not(o) =>
      NamesEnough(o, scope, low);
      PlainFits(BOOL);
    case Negate(o) => NamesEnough(o, scope, low);
    case Cast(o, target) =>
      NamesEnough(o, scope, low);
      CastFits(target, LowOf(o, low));
    case Chebyshev(_, _, _, _, _) => ChebyshevEnough(e, scope, low);
    case Call(_, args, returned) =>
      AllEnough(args, scope, low);
      LeastFits(returned);
    case Opaque(_, parts) =>
      AllEnough(parts, scope, low);
      UnknownFits(Plain);
  }

  lemma PlainFits(t: Ty)
    requires t.depth == 0 && t.kind != Enc
    ensures Fits(t, Plain)
  {}

  lemma UnknownFits(v: Val)
    ensures Fits(UNKNOWN, v)
  {}

  lemma LeastFits(t: Ty)
    ensures Fits(t, Least(t))
  {}

  lemma LastAtMost(t: Ty, v: Val)
    requires Fits(t, v)
    ensures EachAtMost([t.depth], [v.Chain()])
  {}

  lemma {:induction false} BinaryEnough(e: Expr, scope: Scope, low: Vals)
    requires e.Binary? && NamesFit(e, scope, low)
    ensures LowHolds(e, scope, low)
    decreases e, 0
  {
    hide Fits, BinaryType, BinaryVal, EachAtMost, Val.Chain;
    NamesEnough(e.left, scope, low);
    NamesEnough(e.right, scope, low);
    BinaryFits(e.op, TypeOf(e.left, scope), TypeOf(e.right, scope), LowOf(e.left, low), LowOf(e.right, low));
    var depths, lows := DepthsIn(e.left, scope), LowChainsIn(e.left, scope, low);
    AtMostAppend(depths, lows, DepthsIn(e.right, scope), LowChainsIn(e.right, scope, low));
    depths, lows := depths + DepthsIn(e.right, scope), lows + LowChainsIn(e.right, scope, low);
    if e.op == Times && TypeOf(e, scope).Encrypted() {
      LastAtMost(TypeOf(e, scope), LowOf(e, low));
      AtMostAppend(depths, lows, [TypeOf(e, scope).depth], [LowOf(e, low).Chain()]);
    } else {
      assert depths + [] == depths && lows + [] == lows;
    }
  }

  lemma {:induction false} ChebyshevEnough(e: Expr, scope: Scope, low: Vals)
    requires e.Chebyshev? && NamesFit(e, scope, low)
    ensures LowHolds(e, scope, low)
    decreases e, 0
  {
    hide Fits, EachAtMost, DepthForDegree, Val.Chain, InputVal, InputDepth, Least;
    AllEnough(e.args, scope, low);
    var depths, lows := DepthsInAll(e.args, scope), LowChainsInAll(e.args, scope, low);
    if e.degree.Some? && e.degree.value > 0 {
      ChebyshevFits(TypesOf(e.args, scope), LowsOf(e.args, low), e.input, DepthForDegree(e.degree.value));
      LastAtMost(TypeOf(e, scope), LowOf(e, low));
      AtMostAppend(depths, lows, [TypeOf(e, scope).depth], [LowOf(e, low).Chain()]);
    } else {
      LeastFits(e.returned);
      assert depths + [] == depths && lows + [] == lows;
    }
  }

  lemma {:induction false} AllEnough(es: seq<Expr>, scope: Scope, low: Vals)
    requires forall x :: x in NamesOfAll(es) && x in scope ==> x in low && Fits(scope[x], low[x])
    ensures forall i :: 0 <= i < |es| ==> Fits(TypesOf(es, scope)[i], LowsOf(es, low)[i])
    ensures EachAtMost(DepthsInAll(es, scope), LowChainsInAll(es, scope, low))
    decreases es, 0
  {
    hide Fits, EachAtMost;
    if |es| == 0 {
      NothingAtMost();
    } else {
      NamesEnough(es[0], scope, low);
      AllEnough(es[1..], scope, low);
      AtMostAppend(DepthsIn(es[0], scope), LowChainsIn(es[0], scope, low),
                   DepthsInAll(es[1..], scope), LowChainsInAll(es[1..], scope, low));
      forall i | 0 <= i < |es| ensures Fits(TypesOf(es, scope)[i], LowsOf(es, low)[i]) {
        if i > 0 {
          assert es[i] == es[1..][i - 1] && Fits(TypesOf(es[1..], scope)[i - 1], LowsOf(es[1..], low)[i - 1]);
        }
      }
    }
  }

  // ----- one expression -----

  lemma FitsAbove(t: Ty, u: Val, v: Val)
    requires Fits(t, u) && AtMost(u, v)
    ensures Fits(t, v)
  {}

  /** What holds of the least values holds of every run above them. */
  lemma HoldsAbove(e: Expr, scope: Scope, low: Vals, vals: Vals, outside: Outside)
    requires LowHolds(e, scope, low) && Under(low, vals) && Typed(e, vals, outside)
    ensures Fits(TypeOf(e, scope), ValOf(e, vals, outside))
    ensures EachAtMost(DepthsIn(e, scope), ChainsIn(e, scope, vals, outside))
  {
    hide Fits, AtMost, EachAtMost, Under, Typed;
    RunsAbove(e, scope, low, vals, outside);
    FitsAbove(TypeOf(e, scope), LowOf(e, low), ValOf(e, vals, outside));
    AtMostTrans(DepthsIn(e, scope), LowChainsIn(e, scope, low), ChainsIn(e, scope, vals, outside));
  }

  lemma UnderItself(vals: Vals)
    ensures Under(vals, vals)
  {}

  /** The depth of every expression is at most the chain of the value it has, and so are
      the depths of the operations inside it. */
  lemma ExprFits(e: Expr, scope: Scope, vals: Vals, outside: Outside)
    requires NamesFit(e, scope, vals) && Typed(e, vals, outside)
    ensures Fits(TypeOf(e, scope), ValOf(e, vals, outside))
    ensures EachAtMost(DepthsIn(e, scope), ChainsIn(e, scope, vals, outside))
  {
    hide Fits, EachAtMost, NamesFit, Typed, Under;
    NamesEnough(e, scope, vals);
    UnderItself(vals);
    HoldsAbove(e, scope, vals, vals, outside);
  }
}
