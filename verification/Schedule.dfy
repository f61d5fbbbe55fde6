/** A schedule of an entry point: its stage calls and loops as data, and what they run. */
module Schedule {
  import opened ScheduleTerms
  import opened Symbolic

  // ----- programs -----

  /** A call's argument, positional or named. */
  datatype Arg = Positional(value: Expr) | Named(name: string, value: Expr)

  /** A parameter: its name, and the default it may have. */
  datatype Param = Param(name: string, default_: Option<Expr>)

  datatype Stage = Stage(name: string, server: bool, params: seq<Param>)

  /** A statement of an entry point. A range is up to hi, or up to and with it. */
  datatype Stmt =
    | For(name: string, lo: Expr, hi: Expr, inclusive: bool, body: seq<Stmt>)
    | CallStage(func: seq<string>, args: seq<Arg>)
    | Otherwise

  datatype Program = Program(stages: map<seq<string>, Stage>, consts: Locals)

  datatype Step =
    | Run(stage: string, args: seq<(string, Sym)>)
    | Loop(name: string, lo: Sym, hi: Sym, body: seq<Step>)

  /** A run: the stages in order, each with its parameters' values. */
  type Trace = seq<(string, seq<(string, Value)>)>

  // ----- which argument a parameter gets -----

  function ParamNames(params: seq<Param>): (r: seq<string>)
    ensures |r| == |params| && forall i :: 0 <= i < |params| ==> r[i] == params[i].name
  {
    if |params| == 0 then [] else [params[0].name] + ParamNames(params[1..])
  }

  function Positionals(args: seq<Arg>): seq<Expr> {
    if |args| == 0 then []
    else (if args[0].Positional? then [args[0].value] else []) + Positionals(args[1..])
  }

  /** The first values, each under its parameter's name. */
  function Zipped(names: seq<string>, values: seq<Expr>): map<string, Expr>
    requires |values| <= |names|
  {
    if |values| == 0 then map[]
    else Zipped(names, values[..|values| - 1])[names[|values| - 1] := values[|values| - 1]]
  }

  /** The named arguments on top, none of them unknown or given before. */
  function NamedOver(given: map<string, Expr>, names: seq<string>, args: seq<Arg>): Option<map<string, Expr>> {
    if |args| == 0 then Some(given)
    else
      var before := NamedOver(given, names, args[..|args| - 1]);
      var a := args[|args| - 1];
      if before.None? || a.Positional? then before
      else if a.name !in names || a.name in before.value then None
      else Some(before.value[a.name := a.value])
  }

  function GivenBy(params: seq<Param>, args: seq<Arg>): Option<map<string, Expr>> {
    var names, positional := ParamNames(params), Positionals(args);
    if |positional| > |names| then None else NamedOver(Zipped(names, positional), names, args)
  }

  method GivePositional(names: seq<string>, positional: seq<Expr>) returns (given: map<string, Expr>)
    requires |positional| <= |names|
    ensures given == Zipped(names, positional)
  {
    given := map[];
    for i := 0 to |positional|
      invariant given == Zipped(names, positional[..i])
    {
      assert positional[..i + 1][..i] == positional[..i];
      given := given[names[i] := positional[i]];
    }
    assert positional[..|positional|] == positional;
  }

  /** The loops that fill `given`, of the schedule's step and of the emitted call alike. */
  method Give(params: seq<Param>, args: seq<Arg>) returns (given: Option<map<string, Expr>>)
    ensures given == GivenBy(params, args)
  {
    hide Zipped, Positionals, ParamNames;
    var names, positional := ParamNames(params), Positionals(args);
    if |positional| > |names| {
      return None;
    }
    var g := GivePositional(names, positional);
    for i := 0 to |args|
      invariant NamedOver(Zipped(names, positional), names, args[..i]) == Some(g)
    {
      assert args[..i + 1][..i] == args[..i];
      if args[i].Named? {
        if args[i].name !in names || args[i].name in g {
          NamedFails(Zipped(names, positional), names, args, i + 1);
          return None;
        }
        g := g[args[i].name := args[i].value];
      }
    }
    assert args[..|args|] == args;
    return Some(g);
  }

  lemma {:induction false} NamedFails(given: map<string, Expr>, names: seq<string>, args: seq<Arg>, i: nat)
    requires i <= |args| && NamedOver(given, names, args[..i]).None?
    ensures NamedOver(given, names, args).None?
    decreases |args| - i
  {
    if i == |args| {
      assert args[..i] == args;
    } else {
      assert args[..i + 1][..i] == args[..i];
      NamedFails(given, names, args, i + 1);
    }
  }

  // ----- what a call runs -----

  /** The values of the parameters as the emitted call passes them. With a named argument
      the call is written out up to the last parameter given, defaults included, so
      these are read where the call stands; the others are the callee's own. */
  function Passed(params: seq<Param>, given: map<string, Expr>, upTo: nat, vals: Locals, consts: Locals,
          m: Meaning): Option<seq<(string, Value)>>
    decreases |params|
  {
    if |params| == 0 then Some([])
    else
      var p := params[|params| - 1];
      var before := Passed(params[..|params| - 1], given, upTo, vals, consts, m);
      if before.None? then None
      else if p.name in given then Some(before.value + [(p.name, ValueOf(given[p.name], vals, consts, m))])
      else if p.default_.None? then None
      else
        var at := if |params| <= upTo then vals else map[];
        Some(before.value + [(p.name, ValueOf(p.default_.value, at, consts, m))])
  }

  /** One more than the last parameter given, when some argument is named. */
  function WrittenOut(params: seq<Param>, given: map<string, Expr>, args: seq<Arg>): nat {
    if exists a :: a in args && a.Named? then LastGiven(params, given) else 0
  }

  function LastGiven(params: seq<Param>, given: map<string, Expr>): nat {
    if |params| == 0 then 0
    else if params[|params| - 1].name in given then |params|
    else LastGiven(params[..|params| - 1], given)
  }

  function CallRuns(p: Program, func: seq<string>, args: seq<Arg>, vals: Locals, m: Meaning): Trace {
    if func !in p.stages then []
    else
      var stage := p.stages[func];
      var given := GivenBy(stage.params, args);
      if given.None? then []
      else
        var values := Passed(stage.params, given.value, WrittenOut(stage.params, given.value, args), vals, p.consts, m);
        if values.None? then [] else [(stage.name, values.value)]
  }

  /** The integers a range takes: up to hi, or with it. */
  function Count(lo: Value, hi: Value, inclusive: bool): nat {
    if lo.IntV? && hi.IntV? then
      var end := if inclusive then hi.n + 1 else hi.n;
      if lo.n < end then end - lo.n else 0
    else 0
  }

  /** The entry point's body, run. */
  function Runs(p: Program, stmts: seq<Stmt>, vals: Locals, m: Meaning): Trace
    decreases stmts, 0, 0
  {
    if |stmts| == 0 then [] else RunsOne(p, stmts[0], vals, m) + Runs(p, stmts[1..], vals, m)
  }

  function RunsOne(p: Program, s: Stmt, vals: Locals, m: Meaning): Trace
    decreases s, 1, 0
  {
    match s
    case For(x, lo, hi, inclusive, body) =>
      var from := ValueOf(lo, vals, p.consts, m);
      RunsFor(p, x, if from.IntV? then from.n else 0,
          Count(from, ValueOf(hi, vals, p.consts, m), inclusive), body, vals, m)
    case CallStage(func, args) => CallRuns(p, func, args, vals, m)
    case Otherwise => []
  }

  function RunsFor(p: Program, x: string, from: int, count: nat, body: seq<Stmt>, vals: Locals, m: Meaning): Trace
    decreases body, 1, count
  {
    if count == 0 then []
    else Runs(p, body, vals[[x] := IntV(from)], m) + RunsFor(p, x, from + 1, count - 1, body, vals, m)
  }

  // ----- what a schedule runs -----

  function ArgValues(args: seq<(string, Sym)>, at: Place, m: Meaning): (r: seq<(string, Value)>)
    ensures |r| == |args|
    ensures forall i :: 0 <= i < |args| ==> r[i] == (args[i].0, Eval(args[i].1, at, m))
  {
    if |args| == 0 then []
    else ArgValues(args[..|args| - 1], at, m) + [(args[|args| - 1].0, Eval(args[|args| - 1].1, at, m))]
  }

  function Unrolled(steps: seq<Step>, at: Place, m: Meaning): Trace
    decreases steps, 0, 0
  {
    if |steps| == 0 then [] else UnrolledOne(steps[0], at, m) + Unrolled(steps[1..], at, m)
  }

  function UnrolledOne(s: Step, at: Place, m: Meaning): Trace
    decreases s, 1, 0
  {
    match s
    case Run(stage, args) => [(stage, ArgValues(args, at, m))]
    case Loop(x, lo, hi, body) =>
      var from := Eval(lo, at, m);
      UnrolledFor(x, if from.IntV? then from.n else 0, Count(from, Eval(hi, at, m), false), body, at, m)
  }

  function UnrolledFor(x: string, from: int, count: nat, body: seq<Step>, at: Place, m: Meaning): Trace
    decreases body, 1, count
  {
    if count == 0 then []
    else Unrolled(body, at.(vars := at.vars[x := IntV(from)]), m) + UnrolledFor(x, from + 1, count - 1, body, at, m)
  }

  // ----- making the schedule -----

  /** The symbolic arguments of a step; a default may name constants only. */
  function StepArgs(params: seq<Param>, given: map<string, Expr>, env: Env, p: Program): Option<seq<(string, Sym)>>
    decreases |params|
  {
    if |params| == 0 then Some([])
    else
      var q := params[|params| - 1];
      var before := StepArgs(params[..|params| - 1], given, env, p);
      if before.None? then None
      else if q.name in given then
        var s := SymOf(given[q.name], env, p.consts.Keys, false, p.stages.Keys);
        if s.Some? then Some(before.value + [(q.name, s.value)]) else None
      else if q.default_.None? then None
      else
        var s := SymOf(q.default_.value, map[], p.consts.Keys, false, p.stages.Keys);
        if s.Some? then Some(before.value + [(q.name, s.value)]) else None
  }

  function StepOf(p: Program, func: seq<string>, args: seq<Arg>, env: Env): Option<Step> {
    if func !in p.stages || !p.stages[func].server then None
    else
      var stage := p.stages[func];
      var given := GivenBy(stage.params, args);
      if given.None? then None
      else
        var syms := StepArgs(stage.params, given.value, env, p);
        if syms.Some? then Some(Run(stage.name, syms.value)) else None
  }

  /** One past the upper bound of an inclusive range. */
  function PastEnd(hi: Sym, inclusive: bool): Sym {
    if !inclusive then hi else if hi.Num? then Num(hi.n + 1) else Bin(Add, hi, Num(1))
  }

  function StepsOf(p: Program, stmts: seq<Stmt>, env: Env): Option<seq<Step>>
    decreases stmts, 0
  {
    if |stmts| == 0 then Some([])
    else
      var first := StepFor(p, stmts[0], env);
      var rest := StepsOf(p, stmts[1..], env);
      if first.Some? && rest.Some? then Some([first.value] + rest.value) else None
  }

  function StepFor(p: Program, s: Stmt, env: Env): Option<Step>
    decreases s, 1
  {
    match s
    case For(x, lo, hi, inclusive, body) =>
      var a := SymOf(lo, env, p.consts.Keys, false, p.stages.Keys);
      var b := SymOf(hi, env, p.consts.Keys, false, p.stages.Keys);
      if a.None? || b.None? then None
      else
        var steps := StepsOf(p, body, env[[x] := Name(LoopVar, [x])]);
        if steps.Some? then Some(Loop(x, a.value, PastEnd(b.value, inclusive), steps.value)) else None
    case CallStage(func, args) => StepOf(p, func, args, env)
    case Otherwise => None
  }

  // ----- the schedule preserves the run -----

  /** A name stands for itself: a loop's variable or an argument of the entry point. */
  predicate PlainEnv(env: Env) {
    forall x :: x in env ==> |x| == 1 && (env[x] == Name(LoopVar, x) || env[x] == Name(Argument, x))
  }

  /** The same names, with the same values. */
  ghost predicate SameNames(env: Env, vals: Locals, at: Place, m: Meaning) {
    PlainEnv(env) && env.Keys == vals.Keys && forall x :: x in env ==> Eval(env[x], at, m) == vals[x]
  }

  lemma {:induction false} SymScoped(e: Expr, env: Env, consts: set<seq<string>>, calls: bool, stages: set<seq<string>>)
    requires SymOf(e, env, consts, calls, stages).Some?
    ensures Scoped(e, env.Keys, consts)
    decreases e, 0
  {
    match e
    case FieldOf(obj, _) => SymScoped(obj, env, consts, calls, stages);
    case Minus(o) => SymScoped(o, env, consts, calls, stages);
    case Binary(_, l, r) =>
      SymScoped(l, env, consts, calls, stages);
      SymScoped(r, env, consts, calls, stages);
    case Call(_, args) => SymsScoped(args, env, consts, calls, stages);
    case _ =>
  }

  lemma {:induction false} SymsScoped(es: seq<Expr>, env: Env, consts: set<seq<string>>, calls: bool,
          stages: set<seq<string>>)
    requires SymsOf(es, env, consts, calls, stages).Some?
    ensures forall e :: e in es ==> Scoped(e, env.Keys, consts)
    decreases es, 0
  {
    if |es| > 0 {
      SymScoped(es[0], env, consts, calls, stages);
      SymsScoped(es[1..], env, consts, calls, stages);
    }
  }

  /** A bound or an argument is worth what it is worth in the entry point. */
  lemma TermMeans(p: Program, e: Expr, env: Env, vals: Locals, at: Place, m: Meaning)
    requires m.Sound() && SameNames(env, vals, at, m) && at.consts == p.consts
    requires SymOf(e, env, p.consts.Keys, false, p.stages.Keys).Some?
    ensures Eval(SymOf(e, env, p.consts.Keys, false, p.stages.Keys).value, at, m) == ValueOf(e, vals, p.consts, m)
  {
    hide SymOf, Eval, ValueOf, Meaning.Sound, Scoped;
    SymScoped(e, env, p.consts.Keys, false, p.stages.Keys);
    assert Agrees(env, vals, at, m);
    SymMeans(e, env, false, p.stages.Keys, vals, at, m);
  }

  // ----- defaults -----

  function NamesOf(e: Expr): set<seq<string>> {
    match e
    case Ident(x) => {x}
    case FieldOf(obj, _) => NamesOf(obj)
    case Minus(o) => NamesOf(o)
    case Binary(_, l, r) => NamesOf(l) + NamesOf(r)
    case Call(_, args) => set a, x | a in args && x in NamesOf(a) :: x
    case _ => {}
  }

  /** A default that names no local is worth the same wherever it is read. */
  lemma {:induction false} DefaultMeans(p: Program, e: Expr, vals: Locals, at: Place, m: Meaning)
    requires m.Sound() && at.consts == p.consts && NamesOf(e) !! vals.Keys
    requires SymOf(e, map[], p.consts.Keys, false, p.stages.Keys).Some?
    ensures Eval(SymOf(e, map[], p.consts.Keys, false, p.stages.Keys).value, at, m) == ValueOf(e, vals, p.consts, m)
    decreases e
  {
    hide Meaning.Sound;
    match e
    case FieldOf(obj, _) => DefaultMeans(p, obj, vals, at, m);
    case Minus(o) =>
      DefaultMeans(p, o, vals, at, m);
      LiteralSign(SymOf(o, map[], p.consts.Keys, false, p.stages.Keys).value, at, m);
    case Binary(_, l, r) =>
      DefaultMeans(p, l, vals, at, m);
      DefaultMeans(p, r, vals, at, m);
    case Call(_, _) => assert false;
    case _ =>
  }

  /** No default that the call writes out has a name that the caller uses for a local. */
  predicate KeepsDefaults(params: seq<Param>, given: map<string, Expr>, upTo: nat, locals: set<seq<string>>) {
    forall i :: 0 <= i < |params| && i < upTo && params[i].name !in given && params[i].default_.Some? ==>
      NamesOf(params[i].default_.value) !! locals
  }

  /** Positional, named or defaulted: every parameter gets the value the call passes. */
  lemma {:induction false} ArgumentsMean(p: Program, params: seq<Param>, given: map<string, Expr>, upTo: nat,
                                         env: Env, vals: Locals, at: Place, m: Meaning)
    requires m.Sound() && SameNames(env, vals, at, m) && at.consts == p.consts
    requires KeepsDefaults(params, given, upTo, vals.Keys) && StepArgs(params, given, env, p).Some?
    ensures Passed(params, given, upTo, vals, p.consts, m)
         == Some(ArgValues(StepArgs(params, given, env, p).value, at, m))
  {
    hide SymOf, Eval, ValueOf, Meaning.Sound, SameNames, NamesOf;
    if |params| > 0 {
      var q, before := params[|params| - 1], params[..|params| - 1];
      ArgumentsMean(p, before, given, upTo, env, vals, at, m);
      var all := StepArgs(params, given, env, p).value;
      assert all[..|all| - 1] == StepArgs(before, given, env, p).value;
      if q.name in given {
        TermMeans(p, given[q.name], env, vals, at, m);
      } else {
        DefaultValue(p, q.default_.value, |params| <= upTo, vals, at, m);
      }
    }
  }

  lemma DefaultValue(p: Program, e: Expr, written: bool, vals: Locals, at: Place, m: Meaning)
    requires m.Sound() && at.consts == p.consts && (written ==> NamesOf(e) !! vals.Keys)
    requires SymOf(e, map[], p.consts.Keys, false, p.stages.Keys).Some?
    ensures Eval(SymOf(e, map[], p.consts.Keys, false, p.stages.Keys).value, at, m)
         == ValueOf(e, if written then vals else map[], p.consts, m)
  {
    hide SymOf, Eval, ValueOf, Meaning.Sound;
    if written {
      DefaultMeans(p, e, vals, at, m);
    } else {
      var none: Locals := map[];
      assert NamesOf(e) !! none.Keys;
      DefaultMeans(p, e, none, at, m);
    }
  }

  // ----- steps -----

  /** What the emitted code needs of an entry point: no call's written-out default is
      captured by a local of the entry point. */
  predicate Uncaptured(p: Program, stmts: seq<Stmt>, locals: set<seq<string>>)
    decreases stmts, 0
  {
    |stmts| == 0 || (UncapturedOne(p, stmts[0], locals) && Uncaptured(p, stmts[1..], locals))
  }

  predicate UncapturedOne(p: Program, s: Stmt, locals: set<seq<string>>)
    decreases s, 1
  {
    match s
    case For(x, _, _, _, body) => Uncaptured(p, body, locals + {[x]})
    case CallStage(func, args) =>
      func in p.stages ==>
        var params := p.stages[func].params;
        var given := GivenBy(params, args);
        given.Some? ==> KeepsDefaults(params, given.value, WrittenOut(params, given.value, args), locals)
    case Otherwise => true
  }

  lemma OneMore(hi: Sym, at: Place, m: Meaning)
    requires !hi.Num?
    ensures Eval(PastEnd(hi, true), at, m) == m.binary(Add, Eval(hi, at, m), IntV(1))
  {
    assert Eval(Num(1), at, m) == IntV(1);
    assert PastEnd(hi, true) == Bin(Add, hi, Num(1));
  }

  lemma BoundCounts(hi: Sym, inclusive: bool, from: Value, at: Place, m: Meaning)
    requires m.Sound()
    ensures Count(from, Eval(PastEnd(hi, inclusive), at, m), false) == Count(from, Eval(hi, at, m), inclusive)
  {
    if inclusive {
      if hi.Num? {
        assert Eval(Num(hi.n + 1), at, m) == IntV(hi.n + 1) && Eval(hi, at, m) == IntV(hi.n);
      } else {
        hide Eval, PastEnd;
        OneMore(hi, at, m);
        var v := Eval(hi, at, m);
        if v.IntV? { assert m.binary(Add, IntV(v.n), IntV(1)) == IntV(v.n + 1); }
      }
    }
  }

  lemma InnerNames(env: Env, vals: Locals, at: Place, m: Meaning, x: string, v: Value)
    requires SameNames(env, vals, at, m)
    ensures SameNames(env[[x] := Name(LoopVar, [x])], vals[[x] := v], at.(vars := at.vars[x := v]), m)
  {
    var inner, place := env[[x] := Name(LoopVar, [x])], at.(vars := at.vars[x := v]);
    forall y | y in inner ensures Eval(inner[y], place, m) == vals[[x] := v][y] {
      if y != [x] {
        assert Eval(env[y], at, m) == vals[y] && y == [y[0]];
      }
    }
  }

  lemma CallPreserves(p: Program, func: seq<string>, args: seq<Arg>, env: Env, vals: Locals, at: Place, m: Meaning)
    requires m.Sound() && SameNames(env, vals, at, m) && at.consts == p.consts
    requires UncapturedOne(p, CallStage(func, args), vals.Keys) && StepOf(p, func, args, env).Some?
    ensures UnrolledOne(StepOf(p, func, args, env).value, at, m) == CallRuns(p, func, args, vals, m)
  {
    hide GivenBy, WrittenOut, StepArgs, Passed, SameNames, Meaning.Sound, KeepsDefaults;
    var params := p.stages[func].params;
    var given := GivenBy(params, args).value;
    ArgumentsMean(p, params, given, WrittenOut(params, given, args), env, vals, at, m);
  }

  /** Unrolling the steps runs the same stages on the same values in the same order. */
  lemma {:induction false} StepsPreserve(p: Program, stmts: seq<Stmt>, env: Env, vals: Locals, at: Place, m: Meaning)
    requires m.Sound() && SameNames(env, vals, at, m) && at.consts == p.consts
    requires Uncaptured(p, stmts, vals.Keys) && StepsOf(p, stmts, env).Some?
    ensures Unrolled(StepsOf(p, stmts, env).value, at, m) == Runs(p, stmts, vals, m)
    decreases stmts, 0, 0
  {
    hide SameNames, Meaning.Sound, StepFor, UnrolledOne, RunsOne, UncapturedOne;
    if |stmts| > 0 {
      StepPreserves(p, stmts[0], env, vals, at, m);
      StepsPreserve(p, stmts[1..], env, vals, at, m);
      var steps := StepsOf(p, stmts, env).value;
      assert steps[1..] == StepsOf(p, stmts[1..], env).value;
    }
  }

  lemma {:induction false} StepPreserves(p: Program, s: Stmt, env: Env, vals: Locals, at: Place, m: Meaning)
    requires m.Sound() && SameNames(env, vals, at, m) && at.consts == p.consts
    requires UncapturedOne(p, s, vals.Keys) && StepFor(p, s, env).Some?
    ensures UnrolledOne(StepFor(p, s, env).value, at, m) == RunsOne(p, s, vals, m)
    decreases s, 2, 0
  {
    hide SameNames, Meaning.Sound, SymOf, Eval, ValueOf, PastEnd, Count, StepOf, CallRuns;
    match s
    case For(x, lo, hi, inclusive, body) =>
      TermMeans(p, lo, env, vals, at, m);
      TermMeans(p, hi, env, vals, at, m);
      var from := ValueOf(lo, vals, p.consts, m);
      BoundCounts(SymOf(hi, env, p.consts.Keys, false, p.stages.Keys).value, inclusive, from, at, m);
      LoopPreserves(p, x, if from.IntV? then from.n else 0, Count(from, ValueOf(hi, vals, p.consts, m), inclusive),
                    body, env, vals, at, m);
    case CallStage(func, args) => CallPreserves(p, func, args, env, vals, at, m);
    case Otherwise => assert false;
  }

  lemma {:induction false} LoopPreserves(p: Program, x: string, from: int, count: nat, body: seq<Stmt>,
                                         env: Env, vals: Locals, at: Place, m: Meaning)
    requires m.Sound() && SameNames(env, vals, at, m) && at.consts == p.consts
    requires Uncaptured(p, body, vals.Keys + {[x]}) && StepsOf(p, body, env[[x] := Name(LoopVar, [x])]).Some?
    ensures UnrolledFor(x, from, count, StepsOf(p, body, env[[x] := Name(LoopVar, [x])]).value, at, m)
         == RunsFor(p, x, from, count, body, vals, m)
    decreases body, 1, count
  {
    hide SameNames, Meaning.Sound, Unrolled, Runs, StepsOf, Uncaptured;
    if count > 0 {
      var v := IntV(from);
      InnerNames(env, vals, at, m, x, v);
      assert vals[[x] := v].Keys == vals.Keys + {[x]};
      StepsPreserve(p, body, env[[x] := Name(LoopVar, [x])], vals[[x] := v], at.(vars := at.vars[x := v]), m);
      LoopPreserves(p, x, from + 1, count - 1, body, env, vals, at, m);
    }
  }

  // ----- an entry point -----

  function EntryEnv(params: seq<string>): Env {
    map x: string | x in params :: [x] := Name(Argument, [x])
  }

  function EntryLocals(args: map<string, Value>): Locals {
    map x | x in args :: [x] := args[x]
  }

  /** For any arguments: the schedule's steps, unrolled, are the entry point's run. */
  lemma EntryPreserves(p: Program, params: seq<string>, body: seq<Stmt>, args: map<string, Value>, m: Meaning)
    requires m.Sound() && (forall x :: x in args <==> x in params)
    requires Uncaptured(p, body, EntryLocals(args).Keys) && StepsOf(p, body, EntryEnv(params)).Some?
    ensures Unrolled(StepsOf(p, body, EntryEnv(params)).value, Place(map[], args, p.consts), m)
         == Runs(p, body, EntryLocals(args), m)
  {
    hide Uncaptured, StepsOf, Unrolled, Runs, Meaning.Sound;
    var at := Place(map[], args, p.consts);
    EntryNames(params, args, at, m);
    StepsPreserve(p, body, EntryEnv(params), EntryLocals(args), at, m);
  }

  lemma EntryNames(params: seq<string>, args: map<string, Value>, at: Place, m: Meaning)
    requires at.args == args && forall x :: x in args <==> x in params
    ensures SameNames(EntryEnv(params), EntryLocals(args), at, m)
  {
    var env, vals := EntryEnv(params), EntryLocals(args);
    forall x ensures x in env <==> x in vals {
      if x in env { assert x[0] in params && x == [x[0]]; }
      if x in vals { assert x[0] in args && x == [x[0]]; }
    }
    assert env.Keys == vals.Keys;
  }

  // ----- which calls bind, and what to -----

  /** Named arguments name parameters that nothing has given yet. */
  predicate NamesFresh(given: set<string>, names: seq<string>, args: seq<Arg>) {
    && (forall i :: 0 <= i < |args| && args[i].Named? ==> args[i].name in names && args[i].name !in given)
    && (forall i, j :: 0 <= i < j < |args| && args[i].Named? && args[j].Named? ==> args[i].name != args[j].name)
  }

  /** g holds what was given, the named arguments, and nothing else. */
  ghost predicate Holds(g: map<string, Expr>, given: map<string, Expr>, args: seq<Arg>) {
    && (forall i :: 0 <= i < |args| && args[i].Named? ==> args[i].name in g && g[args[i].name] == args[i].value)
    && (forall x :: x in given ==> x in g && g[x] == given[x])
    && (forall x :: x in g && x !in given ==> exists i :: 0 <= i < |args| && args[i].Named? && args[i].name == x)
  }

  lemma FreshMore(given: set<string>, names: seq<string>, before: seq<Arg>, a: Arg, g: map<string, Expr>,
          had: map<string, Expr>)
    requires NamesFresh(given, names, before) && Holds(g, had, before) && had.Keys == given
    ensures NamesFresh(given, names, before + [a]) <==> (a.Named? ==> a.name in names && a.name !in g)
  {
    var args := before + [a];
    assert forall i :: 0 <= i < |before| ==> args[i] == before[i];
    assert args[|before|] == a;
    if a.Named? && a.name in g && a.name !in given {
      var i :| 0 <= i < |before| && before[i].Named? && before[i].name == a.name;
      assert args[i].name == args[|before|].name;
    }
  }

  lemma FreshBefore(given: set<string>, names: seq<string>, before: seq<Arg>, a: Arg)
    requires NamesFresh(given, names, before + [a])
    ensures NamesFresh(given, names, before)
  {
    assert forall i :: 0 <= i < |before| ==> (before + [a])[i] == before[i];
  }

  lemma HoldsMore(g: map<string, Expr>, given: map<string, Expr>, before: seq<Arg>, a: Arg)
    requires Holds(g, given, before)
    ensures a.Positional? ==> Holds(g, given, before + [a])
    ensures a.Named? && a.name !in g ==> Holds(g[a.name := a.value], given, before + [a])
  {
    var args := before + [a];
    assert forall i :: 0 <= i < |before| ==> args[i] == before[i];
    assert args[|before|] == a;
    forall x | x in g && x !in given ensures exists i :: 0 <= i < |args| && args[i].Named? && args[i].name == x {
      var i :| 0 <= i < |before| && before[i].Named? && before[i].name == x;
      assert args[i].name == x;
    }
  }

  lemma {:induction false} NamedIff(given: map<string, Expr>, names: seq<string>, args: seq<Arg>)
    ensures NamedOver(given, names, args).Some? <==> NamesFresh(given.Keys, names, args)
    ensures NamedOver(given, names, args).Some? ==> Holds(NamedOver(given, names, args).value, given, args)
  {
    if |args| > 0 {
      var before, a := args[..|args| - 1], args[|args| - 1];
      NamedIff(given, names, before);
      assert args == before + [a];
      hide NamesFresh, Holds;
      if NamedOver(given, names, before).Some? {
        var g := NamedOver(given, names, before).value;
        FreshMore(given.Keys, names, before, a, g, given);
        HoldsMore(g, given, before, a);
      } else if NamesFresh(given.Keys, names, args) {
        FreshBefore(given.Keys, names, before, a);
      }
    }
  }

  lemma {:induction false} ZippedAt(names: seq<string>, values: seq<Expr>)
    requires |values| <= |names| && forall i, j :: 0 <= i < j < |names| ==> names[i] != names[j]
    ensures forall i :: 0 <= i < |values| ==>
        names[i] in Zipped(names, values) && Zipped(names, values)[names[i]] == values[i]
    ensures forall x :: x in Zipped(names, values) ==> x in names[..|values|]
  {
    if |values| > 0 {
      var n := |values| - 1;
      ZippedAt(names, values[..n]);
      assert names[..n + 1] == names[..n] + [names[n]];
    }
  }

  /** A call binds exactly when it has no more positional arguments than parameters and
      its named ones name parameters, each once and none that is given by position. */
  lemma GivenIff(params: seq<Param>, args: seq<Arg>)
    requires forall i, j :: 0 <= i < j < |params| ==> params[i].name != params[j].name
    ensures var names, positional := ParamNames(params), Positionals(args);
      && (GivenBy(params, args).Some? <==>
          |positional| <= |names| && NamesFresh((set x | x in names[..|positional|]), names, args))
      && (GivenBy(params, args).Some? ==>
          var g := GivenBy(params, args).value;
          && (forall i :: 0 <= i < |positional| ==> names[i] in g && g[names[i]] == positional[i])
          && (forall i :: 0 <= i < |args| && args[i].Named? ==> args[i].name in g && g[args[i].name] == args[i].value))
  {
    hide NamesFresh, NamedOver, Zipped, Positionals;
    var names, positional := ParamNames(params), Positionals(args);
    if |positional| <= |names| {
      ZippedAt(names, positional);
      NamedIff(Zipped(names, positional), names, args);
      var given := set x | x in names[..|positional|];
      assert Zipped(names, positional).Keys == given by {
        forall x | x in given ensures x in Zipped(names, positional) {
          var i :| 0 <= i < |positional| && names[i] == x;
        }
      }
    }
  }

  // ----- a captured default -----

  const DEFAULTED: Param := Param("n", Some(Ident(["N"])))
  const PLAIN: Param := Param("c", None)

  const CAPTURED: Program := Program(map[["f"] := Stage("f", true, [DEFAULTED, PLAIN])], map[["N"] := IntV(1)])

  const NAMED_CALL: Stmt := CallStage(["f"], [Named("c", IntLit(0))])

  lemma PassedMore(before: seq<Param>, q: Param, given: map<string, Expr>, upTo: nat, vals: Locals, consts: Locals,
          m: Meaning)
    requires Passed(before, given, upTo, vals, consts, m).Some?
    requires q.name in given || q.default_.Some?
    ensures Passed(before + [q], given, upTo, vals, consts, m)
         == Some(Passed(before, given, upTo, vals, consts, m).value
                 + [(q.name, if q.name in given then ValueOf(given[q.name], vals, consts, m)
                             else ValueOf(q.default_.value, if |before| < upTo then vals else map[], consts, m))])
  {
    hide ValueOf;
    assert (before + [q])[..|before|] == before;
  }

  lemma StepArgsMore(before: seq<Param>, q: Param, given: map<string, Expr>, env: Env, p: Program, s: Sym)
    requires StepArgs(before, given, env, p).Some?
    requires q.name in given ==> SymOf(given[q.name], env, p.consts.Keys, false, p.stages.Keys) == Some(s)
    requires q.name !in given ==>
      q.default_.Some? && SymOf(q.default_.value, map[], p.consts.Keys, false, p.stages.Keys) == Some(s)
    ensures StepArgs(before + [q], given, env, p) == Some(StepArgs(before, given, env, p).value + [(q.name, s)])
  {
    hide SymOf;
    assert (before + [q])[..|before|] == before;
  }

  lemma OneStatement(p: Program, s: Stmt, env: Env, vals: Locals, at: Place, m: Meaning)
    ensures StepFor(p, s, env).Some? ==> StepsOf(p, [s], env) == Some([StepFor(p, s, env).value])
    ensures Runs(p, [s], vals, m) == RunsOne(p, s, vals, m)
    ensures StepFor(p, s, env).Some? ==>
        Unrolled([StepFor(p, s, env).value], at, m) == UnrolledOne(StepFor(p, s, env).value, at, m)
  {
    hide StepFor, RunsOne, UnrolledOne;
    assert [s][1..] == [] && StepsOf(p, [s][1..], env) == Some([]);
    assert Runs(p, [s][1..], vals, m) == [];
    if StepFor(p, s, env).Some? {
      assert [StepFor(p, s, env).value] + [] == [StepFor(p, s, env).value];
      assert Unrolled([StepFor(p, s, env).value][1..], at, m) == [];
    }
  }

  const GIVEN: map<string, Expr> := map["c" := IntLit(0)]

  lemma CapturedGiven()
    ensures GivenBy([DEFAULTED, PLAIN], NAMED_CALL.args) == Some(GIVEN) && "n" !in GIVEN
    ensures WrittenOut([DEFAULTED, PLAIN], GIVEN, NAMED_CALL.args) == 2
  {
    var args := NAMED_CALL.args;
    assert args[..0] == [] && args[1..] == [] && Positionals(args) == [] && args[0] in args;
    assert "n"[0] != "c"[0];
    assert [DEFAULTED, PLAIN][1..] == [PLAIN] && [PLAIN][1..] == [];
    var names := ParamNames([DEFAULTED, PLAIN]);
    assert names == ["n", "c"] && "c" == names[1];
    assert NamedOver(map[], names, args[..0]) == Some(map[]);
    assert NamedOver(map[], names, args) == Some(GIVEN);
  }

  lemma CapturedRun(vals: Locals, m: Meaning)
    requires ["N"] in vals
    ensures CallRuns(CAPTURED, ["f"], NAMED_CALL.args, vals, m) == [("f", [("n", vals[["N"]]), ("c", IntV(0))])]
  {
    CapturedGiven();
    hide GivenBy, WrittenOut, Passed;
    assert Passed([], GIVEN, 2, vals, CAPTURED.consts, m) == Some([]) by {
      PassedNone(GIVEN, vals, CAPTURED.consts, m);
    }
    PassedMore([], DEFAULTED, GIVEN, 2, vals, CAPTURED.consts, m);
    PassedMore([] + [DEFAULTED], PLAIN, GIVEN, 2, vals, CAPTURED.consts, m);
    assert [] + [DEFAULTED] + [PLAIN] == [DEFAULTED, PLAIN];
    assert ValueOf(Ident(["N"]), vals, CAPTURED.consts, m) == vals[["N"]];
    assert ValueOf(IntLit(0), vals, CAPTURED.consts, m) == IntV(0);
    assert "c" in GIVEN && GIVEN["c"] == IntLit(0);
    assert Passed([] + [DEFAULTED], GIVEN, 2, vals, CAPTURED.consts, m) == Some([] + [("n", vals[["N"]])]);
    assert [] + [("n", vals[["N"]])] + [("c", IntV(0))] == [("n", vals[["N"]]), ("c", IntV(0))];
    assert Passed([] + [DEFAULTED] + [PLAIN], GIVEN, 2, vals, CAPTURED.consts, m)
        == Some([] + [("n", vals[["N"]])] + [("c", IntV(0))]);
    assert CAPTURED.stages[["f"]] == Stage("f", true, [DEFAULTED, PLAIN]);
  }

  lemma PassedNone(given: map<string, Expr>, vals: Locals, consts: Locals, m: Meaning)
    ensures Passed([], given, 2, vals, consts, m) == Some([])
  {}

  lemma CapturedStep(env: Env)
    ensures StepOf(CAPTURED, ["f"], NAMED_CALL.args, env)
         == Some(Run("f", [("n", Name(BuildParam, ["N"])), ("c", Num(0))]))
  {
    CapturedGiven();
    hide GivenBy, WrittenOut, StepArgs;
    assert StepArgs([], GIVEN, env, CAPTURED) == Some([]) by { StepArgsNone(GIVEN, env); }
    StepArgsMore([], DEFAULTED, GIVEN, env, CAPTURED, Name(BuildParam, ["N"]));
    StepArgsMore([] + [DEFAULTED], PLAIN, GIVEN, env, CAPTURED, Num(0));
    assert [] + [DEFAULTED] + [PLAIN] == [DEFAULTED, PLAIN];
    var first := ("n", Name(BuildParam, ["N"]));
    assert StepArgs([] + [DEFAULTED], GIVEN, env, CAPTURED) == Some([] + [first]);
    assert [] + [first] + [("c", Num(0))] == [first, ("c", Num(0))];
    assert StepArgs([] + [DEFAULTED] + [PLAIN], GIVEN, env, CAPTURED) == Some([] + [first] + [("c", Num(0))]);
    assert CAPTURED.stages[["f"]] == Stage("f", true, [DEFAULTED, PLAIN]);
  }

  lemma StepArgsNone(given: map<string, Expr>, env: Env)
    ensures StepArgs([], given, env, CAPTURED) == Some([])
  {}

  /** An entry point with a local called like the constant N: the emitted call passes the
      local for the default, the schedule the constant. */
  lemma CapturedDefault(env: Env, vals: Locals, at: Place, m: Meaning)
    requires ["N"] in vals && at.consts == CAPTURED.consts
    ensures StepsOf(CAPTURED, [NAMED_CALL], env).Some?
    ensures Runs(CAPTURED, [NAMED_CALL], vals, m) == [("f", [("n", vals[["N"]]), ("c", IntV(0))])]
    ensures Unrolled(StepsOf(CAPTURED, [NAMED_CALL], env).value, at, m) == [("f", [("n", IntV(1)), ("c", IntV(0))])]
  {
    CapturedRun(vals, m);
    CapturedStep(env);
    hide StepOf, CallRuns, StepsOf, Runs, Unrolled;
    var steps := [("n", Name(BuildParam, ["N"])), ("c", Num(0))];
    assert Eval(steps[0].1, at, m) == IntV(1) && Eval(steps[1].1, at, m) == IntV(0);
    assert ArgValues(steps, at, m) == [("n", IntV(1)), ("c", IntV(0))];
    OneStatement(CAPTURED, NAMED_CALL, env, vals, at, m);
  }
}
