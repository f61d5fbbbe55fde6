/** Values as formulas: what an expression is worth when operators, fields and helpers keep
    their operands, and what a formula is worth under any other meaning. */
module Formulas {
  import opened ScheduleTerms
  import opened Symbolic

  /** What is not known of a value. */
  const UNKNOWN: Value := Made(ByUnknown, [])

  function FreeBinary(op: Op, a: Value, b: Value): Value {
    if op == Add && a.IntV? && b.IntV? then IntV(a.n + b.n) else Made(ByOp(op), [a, b])
  }

  function FreeNegate(a: Value): Value {
    if a.IntV? then IntV(-a.n) else Made(ByMinus, [a])
  }

  /** The meaning that computes with integers as it must, and otherwise writes down. */
  const FREE: Meaning := Meaning(
    (op, a, b) => FreeBinary(op, a, b),
    a => FreeNegate(a),
    (a, f) => Made(ByField(f), [a]),
    (f, args) => Made(ByCall(f), args),
    (id, vals) => UNKNOWN)

  const UNSEEN: (nat, seq<string>) -> Value := (i, x) => UNKNOWN

  lemma FreeAdds(a: Value, b: Value)
    ensures a.IntV? && b.IntV? ==> FreeBinary(Add, a, b) == IntV(a.n + b.n)
    ensures FreeBinary(Add, a, b).IntV? ==> a.IntV?
  {}

  lemma FreeIsSound()
    ensures FREE.Sound()
  {
    hide FreeBinary;
    assert forall op, a, b :: FREE.binary(op, a, b) == FreeBinary(op, a, b);
    forall a, b ensures FREE.binary(Add, IntV(a), IntV(b)) == IntV(a + b) { FreeAdds(IntV(a), IntV(b)); }
    forall v ensures FREE.binary(Add, v, IntV(1)).IntV? ==> v.IntV? { FreeAdds(v, IntV(1)); }
  }

  /** Nothing in it is unknown. */
  predicate Clear(v: Value) {
    v.Made? ==> !v.maker.ByUnknown? && forall i :: 0 <= i < |v.parts| ==> Clear(v.parts[i])
  }

  /** Constants are literals. */
  predicate Literals(consts: Locals) {
    forall x :: x in consts ==> !consts[x].Made?
  }

  /** What a formula is worth. */
  function Worth(v: Value, at: Place, m: Meaning): Value {
    match v
    case Made(maker, parts) =>
      (match maker
       case ByOp(op) => if |parts| == 2 then m.binary(op, Worth(parts[0], at, m), Worth(parts[1], at, m)) else v
       case ByMinus => if |parts| == 1 then m.negate(Worth(parts[0], at, m)) else v
       case ByField(f) => if |parts| == 1 then m.field(Worth(parts[0], at, m), f) else v
       case ByCall(f) => m.call(f, Worths(parts, at, m))
       case ByArgument(x) => Look(at.args, [x])
       case ByLoop(x) => Look(at.vars, [x])
       case ByUnknown => v)
    case _ => v
  }

  function Worths(vs: seq<Value>, at: Place, m: Meaning): seq<Value> {
    if |vs| == 0 then [] else [Worth(vs[0], at, m)] + Worths(vs[1..], at, m)
  }

  // ----- symbolic expressions -----

  /** The names that a symbolic expression looks up. */
  function NamesIn(s: Sym): set<string> {
    match s
    case Name(kind, parts) => if kind != BuildParam && |parts| == 1 then {parts[0]} else {}
    case Member(of, _) => NamesIn(of)
    case Apply(_, args) => NamesInAll(args)
    case Neg(a) => NamesIn(a)
    case Bin(_, l, r) => NamesIn(l) + NamesIn(r)
    case _ => {}
  }

  function NamesInAll(ss: seq<Sym>): set<string> {
    if |ss| == 0 then {} else NamesIn(ss[0]) + NamesInAll(ss[1..])
  }

  /** Every name stands for itself. */
  function FreePlace(names: set<string>, consts: Locals): Place {
    Place(map x | x in names :: Made(ByLoop(x), []), map x | x in names :: Made(ByArgument(x), []), consts)
  }

  lemma {:induction false} SymWorth(s: Sym, names: set<string>, at: Place, m: Meaning)
    requires m.Sound() && NamesIn(s) <= names && Literals(at.consts)
    ensures var f := Eval(s, FreePlace(names, at.consts), FREE); Clear(f) && Worth(f, at, m) == Eval(s, at, m)
    decreases s, 0
  {
    hide Meaning.Sound;
    match s
    case Name(_, parts) => NameWorth(s, names, at, m);
    case Member(of, _) => SymWorth(of, names, at, m);
    case Apply(_, args) => SymsWorth(args, names, at, m);
    case Neg(a) =>
      SymWorth(a, names, at, m);
      MinusWorth(Eval(a, FreePlace(names, at.consts), FREE), at, m);
    case Bin(op, l, r) =>
      SymWorth(l, names, at, m);
      SymWorth(r, names, at, m);
      BinaryWorth(op, Eval(l, FreePlace(names, at.consts), FREE), Eval(r, FreePlace(names, at.consts), FREE), at, m);
    case _ =>
  }

  lemma NameWorth(s: Sym, names: set<string>, at: Place, m: Meaning)
    requires s.Name? && NamesIn(s) <= names && Literals(at.consts)
    ensures var f := Eval(s, FreePlace(names, at.consts), FREE); Clear(f) && Worth(f, at, m) == Eval(s, at, m)
  {
    if |s.parts| == 1 { assert s.parts == [s.parts[0]]; }
  }

  lemma BinaryWorth(op: Op, a: Value, b: Value, at: Place, m: Meaning)
    requires m.Sound()
    ensures Clear(a) && Clear(b) <==> Clear(FreeBinary(op, a, b))
    ensures Worth(FreeBinary(op, a, b), at, m) == m.binary(op, Worth(a, at, m), Worth(b, at, m))
  {
    var f := Made(ByOp(op), [a, b]);
    assert f.parts[0] == a && f.parts[1] == b;
  }

  lemma MinusWorth(a: Value, at: Place, m: Meaning)
    requires m.Sound()
    ensures Clear(a) <==> Clear(FreeNegate(a))
    ensures Worth(FreeNegate(a), at, m) == m.negate(Worth(a, at, m))
  {
    var f := Made(ByMinus, [a]);
    assert f.parts[0] == a;
  }

  lemma {:induction false} SymsWorth(ss: seq<Sym>, names: set<string>, at: Place, m: Meaning)
    requires m.Sound() && NamesInAll(ss) <= names && Literals(at.consts)
    ensures var fs := Evals(ss, FreePlace(names, at.consts), FREE);
      && (forall i :: 0 <= i < |fs| ==> Clear(fs[i])) && Worths(fs, at, m) == Evals(ss, at, m)
    decreases ss, 0
  {
    hide Meaning.Sound, Clear, Worth;
    if |ss| > 0 {
      SymWorth(ss[0], names, at, m);
      SymsWorth(ss[1..], names, at, m);
      var fs := Evals(ss, FreePlace(names, at.consts), FREE);
      assert fs[1..] == Evals(ss[1..], FreePlace(names, at.consts), FREE);
      forall i | 0 <= i < |fs| ensures Clear(fs[i]) {
        if i > 0 { assert fs[i] == fs[1..][i - 1]; }
      }
    }
  }

  // ----- source expressions -----

  /** The formulas say what is clear of the locals. */
  ghost predicate Tells(own: Locals, vals: Locals, at: Place, m: Meaning) {
    own.Keys == vals.Keys && forall x :: x in own && Clear(own[x]) ==> Worth(own[x], at, m) == vals[x]
  }

  lemma {:induction false} ValueWorth(e: Expr, own: Locals, vals: Locals, at: Place, m: Meaning)
    requires m.Sound() && Tells(own, vals, at, m) && Literals(at.consts)
    ensures var f := ValueOf(e, own, at.consts, FREE); Clear(f) ==> Worth(f, at, m) == ValueOf(e, vals, at.consts, m)
    decreases e, 0
  {
    hide Meaning.Sound, Tells;
    match e
    case Ident(x) => IdentWorth(x, own, vals, at, m);
    case FieldOf(obj, f) =>
      ValueWorth(obj, own, vals, at, m);
      var v := ValueOf(obj, own, at.consts, FREE);
      assert Made(ByField(f), [v]).parts[0] == v;
    case Minus(o) =>
      ValueWorth(o, own, vals, at, m);
      MinusWorth(ValueOf(o, own, at.consts, FREE), at, m);
    case Binary(op, l, r) =>
      ValueWorth(l, own, vals, at, m);
      ValueWorth(r, own, vals, at, m);
      BinaryWorth(op, ValueOf(l, own, at.consts, FREE), ValueOf(r, own, at.consts, FREE), at, m);
    case Call(_, args) => ValuesWorth(args, own, vals, at, m);
    case _ =>
  }

  lemma IdentWorth(x: seq<string>, own: Locals, vals: Locals, at: Place, m: Meaning)
    requires Tells(own, vals, at, m) && Literals(at.consts)
    ensures var f := ValueOf(Ident(x), own, at.consts, FREE);
      Clear(f) ==> Worth(f, at, m) == ValueOf(Ident(x), vals, at.consts, m)
  {}

  lemma {:induction false} ValuesWorth(es: seq<Expr>, own: Locals, vals: Locals, at: Place, m: Meaning)
    requires m.Sound() && Tells(own, vals, at, m) && Literals(at.consts)
    ensures var fs := ValuesOf(es, own, at.consts, FREE);
      (forall i :: 0 <= i < |fs| ==> Clear(fs[i])) ==> Worths(fs, at, m) == ValuesOf(es, vals, at.consts, m)
    decreases es, 0
  {
    hide Meaning.Sound, Tells, Clear, Worth, ValueOf;
    if |es| > 0 {
      ValueWorth(es[0], own, vals, at, m);
      ValuesWorth(es[1..], own, vals, at, m);
      var fs := ValuesOf(es, own, at.consts, FREE);
      assert fs[1..] == ValuesOf(es[1..], own, at.consts, FREE);
      if forall i :: 0 <= i < |fs| ==> Clear(fs[i]) {
        forall i | 0 <= i < |fs[1..]| ensures Clear(fs[1..][i]) { assert fs[1..][i] == fs[i + 1]; }
      }
    }
  }

  // ----- substitution looks up no other names -----

  predicate NamesOnly(env: Env, names: set<string>) {
    forall x :: x in env ==> NamesIn(env[x]) <= names
  }

  lemma {:induction false} SymNames(e: Expr, env: Env, consts: set<seq<string>>, calls: bool, stages: set<seq<string>>,
          names: set<string>)
    requires NamesOnly(env, names) && SymOf(e, env, consts, calls, stages).Some?
    ensures NamesIn(SymOf(e, env, consts, calls, stages).value) <= names
    decreases e, 0
  {
    match e
    case FieldOf(obj, _) => SymNames(obj, env, consts, calls, stages, names);
    case Minus(o) => SymNames(o, env, consts, calls, stages, names);
    case Binary(_, l, r) =>
      SymNames(l, env, consts, calls, stages, names);
      SymNames(r, env, consts, calls, stages, names);
    case Call(_, args) => SymsNames(args, env, consts, calls, stages, names);
    case _ =>
  }

  lemma {:induction false} SymsNames(es: seq<Expr>, env: Env, consts: set<seq<string>>, calls: bool,
          stages: set<seq<string>>, names: set<string>)
    requires NamesOnly(env, names) && SymsOf(es, env, consts, calls, stages).Some?
    ensures NamesInAll(SymsOf(es, env, consts, calls, stages).value) <= names
    decreases es, 0
  {
    hide SymOf, NamesIn, NamesOnly;
    if |es| > 0 {
      SymNames(es[0], env, consts, calls, stages, names);
      SymsNames(es[1..], env, consts, calls, stages, names);
      var ss := SymsOf(es, env, consts, calls, stages).value;
      assert ss[1..] == SymsOf(es[1..], env, consts, calls, stages).value;
    }
  }
}
