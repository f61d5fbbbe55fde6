/** Source expressions of a schedule, the symbolic expressions made of them, and the
    values of both. */
module ScheduleTerms {
  import opened Symbolic

  datatype Option<+T> = None | Some(value: T)

  /** A source expression; Other is anything a schedule cannot hold. */
  datatype Expr =
    | BoolLit(b: bool)
    | StrLit(s: string)
    | IntLit(n: nat)
    | Ident(parts: seq<string>)
    | FieldOf(obj: Expr, field: string)
    | Minus(operand: Expr)
    | Binary(op: Op, left: Expr, right: Expr)
    | Call(func: seq<string>, args: seq<Expr>)
    | Other(id: nat)

  /** A value that is no literal's is known by a number, or by what made it. */
  datatype Value =
    | IntV(n: int)
    | BoolV(b: bool)
    | StrV(s: string)
    | Opaque(id: nat)
    | Made(maker: Maker, parts: seq<Value>)

  datatype Maker =
    | ByOp(op: Op)
    | ByMinus
    | ByField(name: string)
    | ByCall(func: seq<string>)
    | ByArgument(name: string)
    | ByLoop(name: string)
    | ByUnknown

  /** What operators, fields and helper functions compute. */
  datatype Meaning = Meaning(
    binary: (Op, Value, Value) -> Value,
    negate: Value -> Value,
    field: (Value, string) -> Value,
    call: (seq<string>, seq<Value>) -> Value,
    other: (nat, Locals) -> Value)
  {
    /** The little the translation computes by itself: a literal's sign, and one added
        to the upper bound of an inclusive range. */
    ghost predicate Sound() {
      && (forall a, b :: binary(Add, IntV(a), IntV(b)) == IntV(a + b))
      && (forall v :: binary(Add, v, IntV(1)).IntV? ==> v.IntV?)
      && (forall n :: negate(IntV(n)) == IntV(-n))
    }
  }

  type Locals = map<seq<string>, Value>

  type Env = map<seq<string>, Sym>

  /** The value of a source expression: a local name hides a constant's. */
  function ValueOf(e: Expr, vals: Locals, consts: Locals, m: Meaning): Value {
    match e
    case BoolLit(b) => BoolV(b)
    case StrLit(s) => StrV(s)
    case IntLit(n) => IntV(n)
    case Ident(x) => if x in vals then vals[x] else if x in consts then consts[x] else Opaque(0)
    case FieldOf(obj, f) => m.field(ValueOf(obj, vals, consts, m), f)
    case Minus(o) => m.negate(ValueOf(o, vals, consts, m))
    case Binary(op, l, r) => m.binary(op, ValueOf(l, vals, consts, m), ValueOf(r, vals, consts, m))
    case Call(f, args) => m.call(f, ValuesOf(args, vals, consts, m))
    case Other(id) => m.other(id, vals)
  }

  function ValuesOf(es: seq<Expr>, vals: Locals, consts: Locals, m: Meaning): seq<Value> {
    if |es| == 0 then [] else [ValueOf(es[0], vals, consts, m)] + ValuesOf(es[1..], vals, consts, m)
  }

  /** Where a symbolic expression is evaluated. */
  datatype Place = Place(vars: map<string, Value>, args: map<string, Value>, consts: Locals)

  function Look(vals: map<string, Value>, parts: seq<string>): Value {
    if |parts| == 1 && parts[0] in vals then vals[parts[0]] else Opaque(0)
  }

  /** The value of a symbolic expression. */
  function Eval(s: Sym, at: Place, m: Meaning): Value {
    match s
    case Flag(b) => BoolV(b)
    case Str(t) => StrV(t)
    case Num(n) => IntV(n)
    case Name(kind, parts) =>
      (match kind
       case LoopVar => Look(at.vars, parts)
       case Argument => Look(at.args, parts)
       case BuildParam => if parts in at.consts then at.consts[parts] else Opaque(0))
    case Member(of, f) => m.field(Eval(of, at, m), f)
    case Apply(f, args) => m.call(f, Evals(args, at, m))
    case Neg(arg) => m.negate(Eval(arg, at, m))
    case Bin(op, l, r) => m.binary(op, Eval(l, at, m), Eval(r, at, m))
  }

  function Evals(ss: seq<Sym>, at: Place, m: Meaning): seq<Value> {
    if |ss| == 0 then [] else [Eval(ss[0], at, m)] + Evals(ss[1..], at, m)
  }

  /** sym: e over the names in env and the build's constants. Helper calls are allowed in
      paths only, and never of a stage. */
  function SymOf(e: Expr, env: Env, consts: set<seq<string>>, calls: bool, stages: set<seq<string>>): Option<Sym> {
    match e
    case BoolLit(b) => Some(Flag(b))
    case StrLit(s) => Some(Str(s))
    case IntLit(n) => Some(Num(n))
    case Ident(x) => if x in env then Some(env[x]) else if x in consts then Some(Name(BuildParam, x)) else None
    case FieldOf(obj, f) =>
      var o := SymOf(obj, env, consts, calls, stages);
      if o.Some? then Some(Member(o.value, f)) else None
    case Minus(o) =>
      var v := SymOf(o, env, consts, calls, stages);
      if v.None? then None else if v.value.Num? then Some(Num(-v.value.n)) else Some(Neg(v.value))
    case Binary(op, l, r) =>
      var a := SymOf(l, env, consts, calls, stages);
      var b := SymOf(r, env, consts, calls, stages);
      if a.Some? && b.Some? then Some(Bin(op, a.value, b.value)) else None
    case Call(f, args) =>
      if calls && f !in stages && f !in RESERVED then
        var ss := SymsOf(args, env, consts, calls, stages);
        if ss.Some? then Some(Apply(f, ss.value)) else None
      else None
    case Other(_) => None
  }

  const RESERVED: set<seq<string>> := {["load"], ["save"], ["load_all"]}

  function SymsOf(es: seq<Expr>, env: Env, consts: set<seq<string>>, calls: bool,
          stages: set<seq<string>>): Option<seq<Sym>> {
    if |es| == 0 then Some([])
    else
      var first := SymOf(es[0], env, consts, calls, stages);
      var rest := SymsOf(es[1..], env, consts, calls, stages);
      if first.Some? && rest.Some? then Some([first.value] + rest.value) else None
  }

  /** env says of a name what it is worth, and knows of every name that could be taken
      for a constant. */
  ghost predicate Agrees(env: Env, vals: Locals, at: Place, m: Meaning) {
    && (forall x :: x in env && x in vals ==> Eval(env[x], at, m) == vals[x])
    && (forall x :: x in vals && x !in env ==> x !in at.consts)
    && (forall x :: x in env && x !in vals ==> x !in at.consts)
  }

  /** Every name is a local or a constant. */
  predicate Scoped(e: Expr, vals: set<seq<string>>, consts: set<seq<string>>) {
    match e
    case Ident(x) => x in vals || x in consts
    case FieldOf(obj, _) => Scoped(obj, vals, consts)
    case Minus(o) => Scoped(o, vals, consts)
    case Binary(_, l, r) => Scoped(l, vals, consts) && Scoped(r, vals, consts)
    case Call(_, args) => forall a :: a in args ==> Scoped(a, vals, consts)
    case _ => true
  }

  lemma NameMeans(x: seq<string>, env: Env, vals: Locals, at: Place, m: Meaning)
    requires Agrees(env, vals, at, m) && (x in vals || x in at.consts)
    ensures x in env ==> Eval(env[x], at, m) == ValueOf(Ident(x), vals, at.consts, m)
    ensures x !in env && x in at.consts ==> Eval(Name(BuildParam, x), at, m) == ValueOf(Ident(x), vals, at.consts, m)
  {
    hide Eval;
    if x !in env && x in at.consts {
      assert x !in vals;
      assert Eval(Name(BuildParam, x), at, m) == at.consts[x] by { ConstMeans(x, at, m); }
    }
  }

  lemma ConstMeans(x: seq<string>, at: Place, m: Meaning)
    requires x in at.consts
    ensures Eval(Name(BuildParam, x), at, m) == at.consts[x]
  {}

  lemma LiteralSign(s: Sym, at: Place, m: Meaning)
    requires m.Sound()
    ensures s.Num? ==> Eval(Num(-s.n), at, m) == m.negate(Eval(s, at, m))
  {
    if s.Num? { assert m.negate(IntV(s.n)) == IntV(-s.n); }
  }

  /** Substitution: what a symbolic expression is worth is what the expression is worth. */
  lemma {:induction false} SymMeans(e: Expr, env: Env, calls: bool, stages: set<seq<string>>, vals: Locals, at: Place,
          m: Meaning)
    requires m.Sound() && Agrees(env, vals, at, m) && Scoped(e, vals.Keys, at.consts.Keys)
    requires SymOf(e, env, at.consts.Keys, calls, stages).Some?
    ensures Eval(SymOf(e, env, at.consts.Keys, calls, stages).value, at, m) == ValueOf(e, vals, at.consts, m)
    decreases e, 0
  {
    hide Agrees, Meaning.Sound;
    match e
    case Ident(x) => NameMeans(x, env, vals, at, m);
    case FieldOf(obj, _) => SymMeans(obj, env, calls, stages, vals, at, m);
    case Minus(o) =>
      SymMeans(o, env, calls, stages, vals, at, m);
      LiteralSign(SymOf(o, env, at.consts.Keys, calls, stages).value, at, m);
    case Binary(_, l, r) =>
      SymMeans(l, env, calls, stages, vals, at, m);
      SymMeans(r, env, calls, stages, vals, at, m);
    case Call(_, args) => SymsMean(args, env, calls, stages, vals, at, m);
    case _ =>
  }

  lemma {:induction false} SymsMean(es: seq<Expr>, env: Env, calls: bool, stages: set<seq<string>>, vals: Locals,
          at: Place, m: Meaning)
    requires m.Sound() && Agrees(env, vals, at, m) && forall e :: e in es ==> Scoped(e, vals.Keys, at.consts.Keys)
    requires SymsOf(es, env, at.consts.Keys, calls, stages).Some?
    ensures Evals(SymsOf(es, env, at.consts.Keys, calls, stages).value, at, m) == ValuesOf(es, vals, at.consts, m)
    decreases es, 0
  {
    hide Agrees, Meaning.Sound;
    if |es| > 0 {
      SymMeans(es[0], env, calls, stages, vals, at, m);
      SymsMean(es[1..], env, calls, stages, vals, at, m);
      var r := SymsOf(es, env, at.consts.Keys, calls, stages).value;
      assert r[1..] == SymsOf(es[1..], env, at.consts.Keys, calls, stages).value;
    }
  }
}
