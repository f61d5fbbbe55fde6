/** When a schedule runs what the entry point runs, for all arguments: exactly when no call
    writes out a default that a local of the caller captures. */
module CapturedDefaults {
  import opened ScheduleTerms
  import opened Symbolic
  import opened Schedule

  // ----- a value that nothing computes -----

  function TaintBinary(op: Op, a: Value, b: Value, t: Value): Value {
    if a == t || b == t then t
    else if op == Add && a.IntV? && b.IntV? then IntV(a.n + b.n)
    else Opaque(0)
  }

  function TaintNegate(a: Value, t: Value): Value {
    if a == t then t else if a.IntV? then IntV(-a.n) else Opaque(0)
  }

  /** The meaning under which t is worth what uses it, and nothing else is. */
  function Taint(t: Value): Meaning {
    Meaning(
      (op, a, b) => TaintBinary(op, a, b, t),
      a => TaintNegate(a, t),
      (a, f) => if a == t then t else Opaque(0),
      (f, args) => if t in args then t else Opaque(0),
      (id, vals) => Opaque(0))
  }

  /** No literal, no constant, and not what an unknown name is worth. */
  predicate Unmade(t: Value, consts: Locals) {
    t.Opaque? && t.id != 0 && t !in consts.Values
  }

  lemma TaintIsSound(t: Value)
    requires t.Opaque?
    ensures Taint(t).Sound()
  {
    hide TaintBinary, TaintNegate;
    var m := Taint(t);
    assert forall op, a, b :: m.binary(op, a, b) == TaintBinary(op, a, b, t);
    assert forall a :: m.negate(a) == TaintNegate(a, t);
    forall a, b ensures m.binary(Add, IntV(a), IntV(b)) == IntV(a + b) { TaintAdds(IntV(a), IntV(b), t); }
    forall v ensures m.binary(Add, v, IntV(1)).IntV? ==> v.IntV? { TaintAdds(v, IntV(1), t); }
    forall n ensures m.negate(IntV(n)) == IntV(-n) { TaintNegates(n, t); }
  }

  lemma TaintAdds(a: Value, b: Value, t: Value)
    requires t.Opaque?
    ensures a.IntV? && b.IntV? ==> TaintBinary(Add, a, b, t) == IntV(a.n + b.n)
    ensures TaintBinary(Add, a, b, t).IntV? ==> a.IntV?
  {}

  lemma TaintNegates(n: int, t: Value)
    requires t.Opaque?
    ensures TaintNegate(IntV(n), t) == IntV(-n)
  {}

  lemma {:induction false} UnmadeExists(consts: Locals)
    ensures exists t :: Unmade(t, consts)
  {
    var k := Above(consts.Values);
    assert Unmade(Opaque(k), consts);
  }

  ghost function Above(vs: set<Value>): (k: nat)
    ensures k > 0 && forall v :: v in vs && v.Opaque? ==> v.id < k
  {
    if vs == {} then 1
    else
      var v :| v in vs;
      var k := Above(vs - {v});
      if v.Opaque? && v.id >= k then v.id + 1 else k
  }

  /** Over names that are worth t if they are a constant's: the expression is worth t
      exactly when it uses one of them. */
  ghost predicate Hides(vals: Locals, consts: Locals, t: Value) {
    Unmade(t, consts) && forall x :: x in vals && x in consts ==> vals[x] == t
  }

  /** Every name is a constant's: what a default may use. */
  lemma {:induction false} Tainted(p: Program, e: Expr, vals: Locals, t: Value)
    requires Hides(vals, p.consts, t) && SymOf(e, map[], p.consts.Keys, false, p.stages.Keys).Some?
    ensures ValueOf(e, vals, p.consts, Taint(t)) == t <==> !(NamesOf(e) !! vals.Keys)
    decreases e
  {
    match e
    case Ident(x) =>
    case FieldOf(obj, _) => Tainted(p, obj, vals, t);
    case Minus(o) => Tainted(p, o, vals, t);
    case Binary(_, l, r) =>
      Tainted(p, l, vals, t);
      Tainted(p, r, vals, t);
    case Call(_, _) => assert false;
    case _ =>
  }

  /** A captured default is passed as t, and recorded as something else. */
  lemma DefaultDiffers(p: Program, e: Expr, vals: Locals, at: Place, t: Value)
    requires Hides(vals, p.consts, t) && at.consts == p.consts && !(NamesOf(e) !! vals.Keys)
    requires SymOf(e, map[], p.consts.Keys, false, p.stages.Keys).Some?
    ensures Eval(SymOf(e, map[], p.consts.Keys, false, p.stages.Keys).value, at, Taint(t))
         != ValueOf(e, vals, p.consts, Taint(t))
  {
    hide SymOf, Eval, ValueOf, Meaning.Sound, NamesOf, Taint;
    var none: Locals := map[];
    TaintIsSound(t);
    Tainted(p, e, vals, t);
    Tainted(p, e, none, t);
    assert NamesOf(e) !! none.Keys;
    DefaultMeans(p, e, none, at, Taint(t));
  }

  // ----- one call -----

  /** The schedule's arguments are as many as the call's, and one of them differs. */
  lemma {:induction false} ArgumentsDiffer(p: Program, params: seq<Param>, given: map<string, Expr>, upTo: nat,
          env: Env, vals: Locals, at: Place, t: Value)
    requires Hides(vals, p.consts, t) && at.consts == p.consts
    requires StepArgs(params, given, env, p).Some? && !KeepsDefaults(params, given, upTo, vals.Keys)
    ensures var passed := Passed(params, given, upTo, vals, p.consts, Taint(t));
      passed.Some? && passed.value != ArgValues(StepArgs(params, given, env, p).value, at, Taint(t))
  {
    hide SymOf, Eval, ValueOf, NamesOf, Taint, Hides;
    var n := |params| - 1;
    var q, before := params[n], params[..n];
    var all := StepArgs(params, given, env, p).value;
    BindsAll(p, params, given, upTo, env, vals, Taint(t));
    assert all[..n] == StepArgs(before, given, env, p).value;
    BindsAll(p, before, given, upTo, env, vals, Taint(t));
    var passed := Passed(params, given, upTo, vals, p.consts, Taint(t)).value;
    var values := ArgValues(all, at, Taint(t));
    if !KeepsDefaults(before, given, upTo, vals.Keys) {
      ArgumentsDiffer(p, before, given, upTo, env, vals, at, t);
      assert passed[..n] != values[..n];
    } else {
      assert q.name !in given && n < upTo && q.default_.Some? && !(NamesOf(q.default_.value) !! vals.Keys);
      DefaultDiffers(p, q.default_.value, vals, at, t);
      assert passed[n] != values[n];
    }
  }

  lemma {:induction false} BindsAll(p: Program, params: seq<Param>, given: map<string, Expr>, upTo: nat,
          env: Env, vals: Locals, m: Meaning)
    requires StepArgs(params, given, env, p).Some?
    ensures |StepArgs(params, given, env, p).value| == |params|
    ensures Passed(params, given, upTo, vals, p.consts, m).Some?
    ensures |Passed(params, given, upTo, vals, p.consts, m).value| == |params|
  {
    hide SymOf, ValueOf;
    if |params| > 0 { BindsAll(p, params[..|params| - 1], given, upTo, env, vals, m); }
  }

  lemma CallDiffers(p: Program, func: seq<string>, args: seq<Arg>, env: Env, vals: Locals, at: Place, t: Value)
    requires Hides(vals, p.consts, t) && at.consts == p.consts && StepOf(p, func, args, env).Some?
    requires !UncapturedOne(p, CallStage(func, args), vals.Keys)
    ensures UnrolledOne(StepOf(p, func, args, env).value, at, Taint(t)) != CallRuns(p, func, args, vals, Taint(t))
  {
    hide GivenBy, WrittenOut, StepArgs, Passed, KeepsDefaults, Hides, Taint, ArgValues;
    var params := p.stages[func].params;
    var given := GivenBy(params, args).value;
    var upTo := WrittenOut(params, given, args);
    ArgumentsDiffer(p, params, given, upTo, env, vals, at, t);
    var run := CallRuns(p, func, args, vals, Taint(t));
    var step := UnrolledOne(StepOf(p, func, args, env).value, at, Taint(t));
    assert run[0].1 != step[0].1;
  }

  /** All the world's names worth t. */
  function TaintPlace(env: Env, consts: Locals, t: Value): Place {
    var all := map x | x in env && |x| == 1 :: x[0] := t;
    Place(all, all, consts)
  }

  lemma TaintedNames(env: Env, consts: Locals, t: Value)
    requires PlainEnv(env)
    ensures SameNames(env, map x | x in env :: t, TaintPlace(env, consts, t), Taint(t))
  {
    var vals: Locals, at := map x | x in env :: t, TaintPlace(env, consts, t);
    forall x | x in env ensures Eval(env[x], at, Taint(t)) == vals[x] {
      assert x == [x[0]] && x[0] in at.vars && at.vars[x[0]] == t;
    }
  }

  /** In every world, the step runs what the call runs. */
  ghost predicate CallRight(p: Program, func: seq<string>, args: seq<Arg>, env: Env)
    requires StepOf(p, func, args, env).Some?
  {
    forall vals: Locals, at: Place, m: Meaning ::
      m.Sound() && SameNames(env, vals, at, m) && at.consts == p.consts ==>
        UnrolledOne(StepOf(p, func, args, env).value, at, m) == CallRuns(p, func, args, vals, m)
  }

  /** A step runs what its call runs, for all values and sound meanings, if and only if the
      call writes out no default with a name that the caller uses for a local. */
  lemma CallExactly(p: Program, func: seq<string>, args: seq<Arg>, env: Env)
    requires PlainEnv(env) && StepOf(p, func, args, env).Some?
    ensures CallRight(p, func, args, env) <==> UncapturedOne(p, CallStage(func, args), env.Keys)
  {
    hide StepOf, UncapturedOne, CallRuns, UnrolledOne, SameNames, Meaning.Sound, Taint, Unmade;
    if UncapturedOne(p, CallStage(func, args), env.Keys) {
      forall vals: Locals, at: Place, m: Meaning | m.Sound() && SameNames(env, vals, at, m) && at.consts == p.consts
        ensures UnrolledOne(StepOf(p, func, args, env).value, at, m) == CallRuns(p, func, args, vals, m)
      {
        SameKeys(env, vals, at, m);
        CallPreserves(p, func, args, env, vals, at, m);
      }
    } else {
      UnmadeExists(p.consts);
      var t :| Unmade(t, p.consts);
      UnmadeIsOpaque(t, p.consts);
      TaintIsSound(t);
      TaintedNames(env, p.consts, t);
      var vals: Locals := map x | x in env :: t;
      assert vals.Keys == env.Keys;
      CallDiffers(p, func, args, env, vals, TaintPlace(env, p.consts, t), t);
    }
  }

  lemma UnmadeIsOpaque(t: Value, consts: Locals)
    requires Unmade(t, consts)
    ensures t.Opaque?
  {}

  lemma SameKeys(env: Env, vals: Locals, at: Place, m: Meaning)
    requires SameNames(env, vals, at, m)
    ensures env.Keys == vals.Keys
  {}

  // ----- entry points -----

  /** The integer that a bound is worth in every run: literals and constants, added and negated. */
  function Known(e: Expr, consts: Locals, locals: set<seq<string>>): Option<int> {
    match e
    case IntLit(n) => Some(n)
    case Ident(x) => if x !in locals && x in consts && consts[x].IntV? then Some(consts[x].n) else None
    case Minus(o) =>
      var v := Known(o, consts, locals);
      if v.Some? then Some(-v.value) else None
    case Binary(Add, l, r) =>
      var a, b := Known(l, consts, locals), Known(r, consts, locals);
      if a.Some? && b.Some? then Some(a.value + b.value) else None
    case _ => None
  }

  lemma {:induction false} KnownMeans(e: Expr, consts: Locals, vals: Locals, m: Meaning)
    requires m.Sound() && Known(e, consts, vals.Keys).Some?
    ensures ValueOf(e, vals, consts, m) == IntV(Known(e, consts, vals.Keys).value)
  {
    match e
    case Minus(o) => KnownMeans(o, consts, vals, m);
    case Binary(Add, l, r) =>
      KnownMeans(l, consts, vals, m);
      KnownMeans(r, consts, vals, m);
    case _ =>
  }

  /** The range starts at a known integer, and ends past it or at an open name. */
  predicate Opens(lo: Expr, hi: Expr, inclusive: bool, consts: Locals, locals: set<seq<string>>,
          open: set<seq<string>>) {
    var a, b := Known(lo, consts, locals), Known(hi, consts, locals);
    && a.Some?
    && ((hi.Ident? && hi.parts in open) || (b.Some? && a.value < b.value + if inclusive then 1 else 0))
  }

  /** Every loop runs at least once when the open names are worth enough, and no loop's
      variable is called like a constant. */
  predicate Runnable(p: Program, stmts: seq<Stmt>, locals: set<seq<string>>, open: set<seq<string>>)
    decreases stmts, 0
  {
    |stmts| == 0 || (RunnableOne(p, stmts[0], locals, open) && Runnable(p, stmts[1..], locals, open))
  }

  predicate RunnableOne(p: Program, s: Stmt, locals: set<seq<string>>, open: set<seq<string>>)
    decreases s, 1
  {
    s.For? ==>
      && [s.name] !in p.consts && Opens(s.lo, s.hi, s.inclusive, p.consts, locals, open)
      && Runnable(p, s.body, locals + {[s.name]}, open - {[s.name]})
  }

  /** Every known start is below k. */
  predicate Enough(p: Program, stmts: seq<Stmt>, locals: set<seq<string>>, k: int)
    decreases stmts, 0
  {
    |stmts| == 0 || (EnoughOne(p, stmts[0], locals, k) && Enough(p, stmts[1..], locals, k))
  }

  predicate EnoughOne(p: Program, s: Stmt, locals: set<seq<string>>, k: int)
    decreases s, 1
  {
    s.For? ==>
      var a := Known(s.lo, p.consts, locals);
      (a.Some? ==> a.value < k) && Enough(p, s.body, locals + {[s.name]}, k)
  }

  function EnoughFor(p: Program, stmts: seq<Stmt>, locals: set<seq<string>>): int
    decreases stmts, 0
  {
    if |stmts| == 0 then 0 else Most(EnoughForOne(p, stmts[0], locals), EnoughFor(p, stmts[1..], locals))
  }

  function EnoughForOne(p: Program, s: Stmt, locals: set<seq<string>>): int
    decreases s, 1
  {
    if s.For? then
      var a, k := Known(s.lo, p.consts, locals), EnoughFor(p, s.body, locals + {[s.name]});
      if a.Some? then Most(a.value + 1, k) else k
    else 0
  }

  function Most(a: int, b: int): int {
    if a < b then b else a
  }

  lemma {:induction false} IsEnough(p: Program, stmts: seq<Stmt>, locals: set<seq<string>>, k: int)
    requires EnoughFor(p, stmts, locals) <= k
    ensures Enough(p, stmts, locals, k)
    decreases stmts, 0
  {
    if |stmts| > 0 {
      IsEnoughOne(p, stmts[0], locals, k);
      IsEnough(p, stmts[1..], locals, k);
    }
  }

  lemma {:induction false} IsEnoughOne(p: Program, s: Stmt, locals: set<seq<string>>, k: int)
    requires EnoughForOne(p, s, locals) <= k
    ensures EnoughOne(p, s, locals, k)
    decreases s, 1
  {
    if s.For? { IsEnough(p, s.body, locals + {[s.name]}, k); }
  }

  // ----- the schedule runs as many stages as the entry point -----

  lemma {:induction false} SameLengths(p: Program, stmts: seq<Stmt>, env: Env, vals: Locals, at: Place, m: Meaning)
    requires m.Sound() && SameNames(env, vals, at, m) && at.consts == p.consts && StepsOf(p, stmts, env).Some?
    ensures |Unrolled(StepsOf(p, stmts, env).value, at, m)| == |Runs(p, stmts, vals, m)|
    decreases stmts, 0, 0
  {
    hide SameNames, Meaning.Sound, StepFor, UnrolledOne, RunsOne;
    if |stmts| > 0 {
      SameLength(p, stmts[0], env, vals, at, m);
      SameLengths(p, stmts[1..], env, vals, at, m);
      var steps := StepsOf(p, stmts, env).value;
      assert steps[1..] == StepsOf(p, stmts[1..], env).value;
    }
  }

  lemma {:induction false} SameLength(p: Program, s: Stmt, env: Env, vals: Locals, at: Place, m: Meaning)
    requires m.Sound() && SameNames(env, vals, at, m) && at.consts == p.consts && StepFor(p, s, env).Some?
    ensures |UnrolledOne(StepFor(p, s, env).value, at, m)| == |RunsOne(p, s, vals, m)|
    decreases s, 2, 0
  {
    hide SameNames, Meaning.Sound, SymOf, Eval, ValueOf, PastEnd, Count, GivenBy, StepArgs, Passed, WrittenOut;
    match s
    case For(x, lo, hi, inclusive, body) =>
      SameBounds(p, s, env, vals, at, m);
      var from := ValueOf(lo, vals, p.consts, m);
      LoopLength(p, x, if from.IntV? then from.n else 0, Count(from, ValueOf(hi, vals, p.consts, m), inclusive),
                 body, env, vals, at, m);
    case CallStage(func, args) =>
      var params := p.stages[func].params;
      var given := GivenBy(params, args).value;
      BindsAll(p, params, given, WrittenOut(params, given, args), env, vals, m);
    case Otherwise => assert false;
  }

  lemma {:induction false} LoopLength(p: Program, x: string, from: int, count: nat, body: seq<Stmt>, env: Env,
          vals: Locals, at: Place, m: Meaning)
    requires m.Sound() && SameNames(env, vals, at, m) && at.consts == p.consts
    requires StepsOf(p, body, env[[x] := Name(LoopVar, [x])]).Some?
    ensures |UnrolledFor(x, from, count, StepsOf(p, body, env[[x] := Name(LoopVar, [x])]).value, at, m)|
         == |RunsFor(p, x, from, count, body, vals, m)|
    decreases body, 1, count
  {
    hide SameNames, Meaning.Sound, Unrolled, Runs, StepsOf;
    if count > 0 {
      var v := IntV(from);
      InnerNames(env, vals, at, m, x, v);
      SameLengths(p, body, env[[x] := Name(LoopVar, [x])], vals[[x] := v], at.(vars := at.vars[x := v]), m);
      LoopLength(p, x, from + 1, count - 1, body, env, vals, at, m);
    }
  }

  /** The loop of the schedule makes the entry point's rounds. */
  lemma SameBounds(p: Program, s: Stmt, env: Env, vals: Locals, at: Place, m: Meaning)
    requires m.Sound() && SameNames(env, vals, at, m) && at.consts == p.consts && s.For? && StepFor(p, s, env).Some?
    ensures var step := StepFor(p, s, env).value;
      var from := ValueOf(s.lo, vals, p.consts, m);
      && step.Loop? && step.name == s.name && Eval(step.lo, at, m) == from
      && Count(from, Eval(step.hi, at, m), false) == Count(from, ValueOf(s.hi, vals, p.consts, m), s.inclusive)
  {
    hide SameNames, Meaning.Sound, SymOf, Eval, ValueOf, PastEnd, Count;
    TermMeans(p, s.lo, env, vals, at, m);
    TermMeans(p, s.hi, env, vals, at, m);
    BoundCounts(SymOf(s.hi, env, p.consts.Keys, false, p.stages.Keys).value, s.inclusive,
                ValueOf(s.lo, vals, p.consts, m), at, m);
  }

  lemma ApartFirst<T>(a: seq<T>, b: seq<T>, c: seq<T>, d: seq<T>)
    requires |a| == |b| && (a != b || c != d)
    ensures a + c != b + d
  {
    assert (a + c)[..|a|] == a && (b + d)[..|b|] == b && (a + c)[|a|..] == c && (b + d)[|b|..] == d;
  }

  // ----- a captured default shows -----

  /** The names that constants have are worth t, and the open ones k. */
  ghost predicate Filled(p: Program, env: Env, vals: Locals, at: Place, t: Value, k: int, open: set<seq<string>>) {
    && Hides(vals, p.consts, t) && SameNames(env, vals, at, Taint(t)) && at.consts == p.consts
    && forall x :: x in open ==> x in vals && vals[x] == IntV(k)
  }

  lemma FilledFacts(p: Program, env: Env, vals: Locals, at: Place, t: Value, k: int, open: set<seq<string>>)
    requires Filled(p, env, vals, at, t, k, open)
    ensures Taint(t).Sound() && SameNames(env, vals, at, Taint(t)) && at.consts == p.consts && Hides(vals, p.consts, t)
  {
    TaintIsSound(t);
  }

  lemma FilledInside(p: Program, env: Env, vals: Locals, at: Place, t: Value, k: int, open: set<seq<string>>,
          x: string, from: int)
    requires Filled(p, env, vals, at, t, k, open) && [x] !in p.consts
    ensures Filled(p, env[[x] := Name(LoopVar, [x])], vals[[x] := IntV(from)],
                   at.(vars := at.vars[x := IntV(from)]), t, k, open - {[x]})
  {
    hide Taint, SameNames;
    InnerNames(env, vals, at, Taint(t), x, IntV(from));
  }

  lemma RunsSome(p: Program, s: Stmt, vals: Locals, t: Value, k: int, open: set<seq<string>>)
    requires s.For? && Taint(t).Sound() && Opens(s.lo, s.hi, s.inclusive, p.consts, vals.Keys, open)
    requires Known(s.lo, p.consts, vals.Keys).value < k
    requires forall x :: x in open ==> x in vals && vals[x] == IntV(k)
    ensures var from := ValueOf(s.lo, vals, p.consts, Taint(t));
      from.IntV? && Count(from, ValueOf(s.hi, vals, p.consts, Taint(t)), s.inclusive) > 0
  {
    hide Known, Meaning.Sound, Taint;
    KnownMeans(s.lo, p.consts, vals, Taint(t));
    if Known(s.hi, p.consts, vals.Keys).Some? { KnownMeans(s.hi, p.consts, vals, Taint(t)); }
  }

  lemma {:induction false} StepsDiffer(p: Program, stmts: seq<Stmt>, env: Env, vals: Locals, at: Place, t: Value,
          k: int, open: set<seq<string>>)
    requires Filled(p, env, vals, at, t, k, open) && Runnable(p, stmts, vals.Keys, open)
    requires Enough(p, stmts, vals.Keys, k) && StepsOf(p, stmts, env).Some? && !Uncaptured(p, stmts, vals.Keys)
    ensures Unrolled(StepsOf(p, stmts, env).value, at, Taint(t)) != Runs(p, stmts, vals, Taint(t))
    decreases stmts, 0
  {
    hide Filled, StepFor, UnrolledOne, RunsOne, RunnableOne, EnoughOne, UncapturedOne, SameNames, Taint, Meaning.Sound;
    hide Hides;
    FilledFacts(p, env, vals, at, t, k, open);
    var steps := StepsOf(p, stmts, env).value;
    assert steps[1..] == StepsOf(p, stmts[1..], env).value;
    SameLength(p, stmts[0], env, vals, at, Taint(t));
    if !UncapturedOne(p, stmts[0], vals.Keys) {
      StepDiffers(p, stmts[0], env, vals, at, t, k, open);
    } else {
      StepsDiffer(p, stmts[1..], env, vals, at, t, k, open);
    }
    ApartFirst(UnrolledOne(steps[0], at, Taint(t)), RunsOne(p, stmts[0], vals, Taint(t)),
               Unrolled(steps[1..], at, Taint(t)), Runs(p, stmts[1..], vals, Taint(t)));
  }

  lemma {:induction false} StepDiffers(p: Program, s: Stmt, env: Env, vals: Locals, at: Place, t: Value, k: int,
          open: set<seq<string>>)
    requires Filled(p, env, vals, at, t, k, open) && RunnableOne(p, s, vals.Keys, open)
    requires EnoughOne(p, s, vals.Keys, k) && StepFor(p, s, env).Some? && !UncapturedOne(p, s, vals.Keys)
    ensures UnrolledOne(StepFor(p, s, env).value, at, Taint(t)) != RunsOne(p, s, vals, Taint(t))
    decreases s, 1
  {
    hide Filled, SameNames, Taint, Meaning.Sound, Hides, StepOf, CallRuns, Eval, ValueOf, PastEnd, Count, SymOf, Known;
    FilledFacts(p, env, vals, at, t, k, open);
    match s
    case For(_, _, _, _, _) => LoopDiffers(p, s, env, vals, at, t, k, open);
    case CallStage(func, args) => CallDiffers(p, func, args, env, vals, at, t);
    case Otherwise => assert false;
  }

  lemma {:induction false} LoopDiffers(p: Program, s: Stmt, env: Env, vals: Locals, at: Place, t: Value, k: int,
          open: set<seq<string>>)
    requires s.For? && Filled(p, env, vals, at, t, k, open) && RunnableOne(p, s, vals.Keys, open)
    requires EnoughOne(p, s, vals.Keys, k) && StepFor(p, s, env).Some? && !UncapturedOne(p, s, vals.Keys)
    ensures UnrolledOne(StepFor(p, s, env).value, at, Taint(t)) != RunsOne(p, s, vals, Taint(t))
    decreases s, 0
  {
    hide SameNames, Taint, Meaning.Sound, Hides, Eval, ValueOf, PastEnd, Count, SymOf, Known;
    FilledFacts(p, env, vals, at, t, k, open);
    RunsSome(p, s, vals, t, k, open);
    SameBounds(p, s, env, vals, at, Taint(t));
    var from := ValueOf(s.lo, vals, p.consts, Taint(t)).n;
    var inner, v := env[[s.name] := Name(LoopVar, [s.name])], IntV(from);
    var count := Count(IntV(from), ValueOf(s.hi, vals, p.consts, Taint(t)), s.inclusive);
    FilledInside(p, env, vals, at, t, k, open, s.name, from);
    assert vals[[s.name] := v].Keys == vals.Keys + {[s.name]};
    StepsDiffer(p, s.body, inner, vals[[s.name] := v], at.(vars := at.vars[s.name := v]), t, k, open - {[s.name]});
    FirstRound(p, s.name, from, count, s.body, env, vals, at, Taint(t));
  }

  /** A difference in the first round is one of the loop. */
  lemma FirstRound(p: Program, x: string, from: int, count: nat, body: seq<Stmt>, env: Env, vals: Locals, at: Place,
          m: Meaning)
    requires m.Sound() && SameNames(env, vals, at, m) && at.consts == p.consts && count > 0
    requires StepsOf(p, body, env[[x] := Name(LoopVar, [x])]).Some?
    requires Unrolled(StepsOf(p, body, env[[x] := Name(LoopVar, [x])]).value, at.(vars := at.vars[x := IntV(from)]), m)
          != Runs(p, body, vals[[x] := IntV(from)], m)
    ensures UnrolledFor(x, from, count, StepsOf(p, body, env[[x] := Name(LoopVar, [x])]).value, at, m)
         != RunsFor(p, x, from, count, body, vals, m)
  {
    hide SameNames, Meaning.Sound, Unrolled, Runs, StepsOf;
    var inner, place := env[[x] := Name(LoopVar, [x])], at.(vars := at.vars[x := IntV(from)]);
    InnerNames(env, vals, at, m, x, IntV(from));
    SameLengths(p, body, inner, vals[[x] := IntV(from)], place, m);
    var steps := StepsOf(p, body, inner).value;
    ApartFirst(Unrolled(steps, place, m), Runs(p, body, vals[[x] := IntV(from)], m),
               UnrolledFor(x, from + 1, count - 1, steps, at, m), RunsFor(p, x, from + 1, count - 1, body, vals, m));
  }

  // ----- all arguments -----

  /** For all arguments and sound meanings, the schedule runs what the entry point runs. */
  ghost predicate EntryRight(p: Program, params: seq<string>, body: seq<Stmt>)
    requires StepsOf(p, body, EntryEnv(params)).Some?
  {
    forall args: map<string, Value>, m: Meaning :: m.Sound() && Binds(args, params) ==>
      Unrolled(StepsOf(p, body, EntryEnv(params)).value, Place(map[], args, p.consts), m)
      == Runs(p, body, EntryLocals(args), m)
  }

  ghost predicate Binds(args: map<string, Value>, params: seq<string>) {
    forall x :: x in args <==> x in params
  }

  /** The parameters that are not called like a constant. */
  function OpenNames(p: Program, params: seq<string>): set<seq<string>> {
    set x | x in params && [x] !in p.consts :: [x]
  }

  function WorldArgs(p: Program, params: seq<string>, t: Value, k: int): map<string, Value> {
    map x | x in params :: if [x] in p.consts then t else IntV(k)
  }

  lemma WorldFilled(p: Program, params: seq<string>, t: Value, k: int)
    requires Unmade(t, p.consts)
    ensures var args := WorldArgs(p, params, t, k);
      && Binds(args, params)
      && Filled(p, EntryEnv(params), EntryLocals(args), Place(map[], args, p.consts), t, k, OpenNames(p, params))
      && EntryLocals(args).Keys == EntryEnv(params).Keys
  {
    hide Taint, Unmade, SameNames;
    var args := WorldArgs(p, params, t, k);
    var at := Place(map[], args, p.consts);
    EntryNames(params, args, at, Taint(t));
    SameKeys(EntryEnv(params), EntryLocals(args), at, Taint(t));
    var vals := EntryLocals(args);
    forall x | x in OpenNames(p, params) ensures x in vals && vals[x] == IntV(k) {
      var y :| y in params && [y] !in p.consts && x == [y];
      assert y in args && args[y] == IntV(k) && vals[[y]] == args[y];
    }
  }

  /** A schedule runs what its entry point runs, for all arguments, if and only if no call
      writes out a captured default; whenever every loop can run. */
  lemma EntryExactly(p: Program, params: seq<string>, body: seq<Stmt>)
    requires StepsOf(p, body, EntryEnv(params)).Some?
    requires Runnable(p, body, EntryEnv(params).Keys, OpenNames(p, params))
    ensures EntryRight(p, params, body) <==> Uncaptured(p, body, EntryEnv(params).Keys)
  {
    hide Uncaptured, StepsOf, Unrolled, Runs, Meaning.Sound, Runnable, Enough, EnoughFor, Filled, Unmade, Taint;
    hide OpenNames, WorldArgs;
    if Uncaptured(p, body, EntryEnv(params).Keys) {
      forall args: map<string, Value>, m: Meaning | m.Sound() && Binds(args, params)
        ensures Unrolled(StepsOf(p, body, EntryEnv(params)).value, Place(map[], args, p.consts), m)
             == Runs(p, body, EntryLocals(args), m)
      {
        EntryNames(params, args, Place(map[], args, p.consts), m);
        SameKeys(EntryEnv(params), EntryLocals(args), Place(map[], args, p.consts), m);
        EntryPreserves(p, params, body, args, m);
      }
    } else {
      UnmadeExists(p.consts);
      var t :| Unmade(t, p.consts);
      var k := EnoughFor(p, body, EntryEnv(params).Keys);
      WorldFilled(p, params, t, k);
      IsEnough(p, body, EntryEnv(params).Keys, k);
      var args := WorldArgs(p, params, t, k);
      var at := Place(map[], args, p.consts);
      FilledFacts(p, EntryEnv(params), EntryLocals(args), at, t, k, OpenNames(p, params));
      StepsDiffer(p, body, EntryEnv(params), EntryLocals(args), at, t, k, OpenNames(p, params));
    }
  }

  /** A body of calls alone. */
  lemma CallsExactly(p: Program, params: seq<string>, body: seq<Stmt>)
    requires StepsOf(p, body, EntryEnv(params)).Some? && forall s :: s in body ==> !s.For?
    ensures EntryRight(p, params, body) <==> Uncaptured(p, body, EntryEnv(params).Keys)
  {
    hide StepsOf, EntryRight, Uncaptured, OpenNames;
    CallsRun(p, body, EntryEnv(params).Keys, OpenNames(p, params));
    EntryExactly(p, params, body);
  }

  lemma {:induction false} CallsRun(p: Program, body: seq<Stmt>, locals: set<seq<string>>, open: set<seq<string>>)
    requires forall s :: s in body ==> !s.For?
    ensures Runnable(p, body, locals, open)
  {
    if |body| > 0 { CallsRun(p, body[1..], locals, open); }
  }

  // ----- a captured default that does not show -----

  const ONE_ROUND: Stmt := For("N", IntLit(1), IntLit(2), false, [NAMED_CALL])

  /** A loop whose variable is called like the constant 1 and runs with 1 only: the default
      is captured, and yet every run is the schedule's. */
  lemma OneRoundHidesIt(env: Env, vals: Locals, at: Place, m: Meaning)
    requires at.consts == CAPTURED.consts
    ensures !UncapturedOne(CAPTURED, ONE_ROUND, vals.Keys) && StepFor(CAPTURED, ONE_ROUND, env).Some?
    ensures UnrolledOne(StepFor(CAPTURED, ONE_ROUND, env).value, at, m) == RunsOne(CAPTURED, ONE_ROUND, vals, m)
  {
    var inner, own := env[["N"] := Name(LoopVar, ["N"])], vals[["N"] := IntV(1)];
    var place := at.(vars := at.vars["N" := IntV(1)]);
    CapturedDefault(inner, own, place, m);
    NamedCallCaptured(own.Keys);
    hide StepsOf, Unrolled, Runs, Uncaptured;
    assert own.Keys == vals.Keys + {["N"]};
    var steps := StepsOf(CAPTURED, [NAMED_CALL], inner).value;
    assert UnrolledFor("N", 2, 0, steps, at, m) == [] == RunsFor(CAPTURED, "N", 2, 0, [NAMED_CALL], vals, m);
    assert UnrolledFor("N", 1, 1, steps, at, m) == RunsFor(CAPTURED, "N", 1, 1, [NAMED_CALL], vals, m);
    assert StepFor(CAPTURED, ONE_ROUND, env) == Some(Loop("N", Num(1), Num(2), steps));
  }

  lemma NamedCallCaptured(locals: set<seq<string>>)
    requires ["N"] in locals
    ensures !Uncaptured(CAPTURED, [NAMED_CALL], locals)
  {
    CapturedGiven();
    hide GivenBy, WrittenOut;
    var params := [DEFAULTED, PLAIN];
    assert params[0].name !in GIVEN && ["N"] in NamesOf(params[0].default_.value);
    assert !KeepsDefaults(params, GIVEN, 2, locals);
    assert CAPTURED.stages[["f"]] == Stage("f", true, params);
  }
}
