/** When an entry point has a schedule: exactly when every statement in it, at whatever
    depth, is a loop over symbolic bounds or a call of a server stage whose arguments and
    defaults are symbolic where they stand. */
module ScheduleMade {
  import opened ScheduleTerms
  import opened Schedule
  import opened Symbolic
  import SP = StagePaths

  // ----- symbolic expressions -----

  /** An expression and everything in it. */
  function Parts(e: Expr): set<Expr>
    decreases e, 0
  {
    {e} + match e
          case FieldOf(obj, _) => Parts(obj)
          case Minus(o) => Parts(o)
          case Binary(_, l, r) => Parts(l) + Parts(r)
          case Call(_, args) => AllParts(args)
          case _ => {}
  }

  function AllParts(es: seq<Expr>): set<Expr>
    decreases es, 0
  {
    if |es| == 0 then {} else Parts(es[0]) + AllParts(es[1..])
  }

  /** What a schedule may hold, of one part by itself. */
  predicate Holdable(e: Expr, names: set<seq<string>>, calls: bool, stages: set<seq<string>>) {
    && !e.Other? && (e.Ident? ==> e.parts in names)
    && (e.Call? ==> calls && e.func !in stages && e.func !in RESERVED)
  }

  ghost predicate IsSymbolic(e: Expr, names: set<seq<string>>, calls: bool, stages: set<seq<string>>) {
    forall x :: x in Parts(e) ==> Holdable(x, names, calls, stages)
  }

  lemma SymbolicOf(e: Expr, inside: set<Expr>, names: set<seq<string>>, calls: bool, stages: set<seq<string>>)
    requires Parts(e) == {e} + inside
    ensures IsSymbolic(e, names, calls, stages) <==>
            Holdable(e, names, calls, stages) && forall x :: x in inside ==> Holdable(x, names, calls, stages)
  {
    hide Holdable, Parts;
    assert e in Parts(e) && forall x :: x in inside ==> x in Parts(e);
  }

  lemma SymbolicBoth(l: Expr, r: Expr, names: set<seq<string>>, calls: bool, stages: set<seq<string>>)
    ensures (forall x :: x in Parts(l) + Parts(r) ==> Holdable(x, names, calls, stages))
       <==> IsSymbolic(l, names, calls, stages) && IsSymbolic(r, names, calls, stages)
  {
    hide Holdable, Parts;
    assert forall x :: x in Parts(l) ==> x in Parts(l) + Parts(r);
    assert forall x :: x in Parts(r) ==> x in Parts(l) + Parts(r);
  }

  /** An expression has a symbolic form exactly when everything in it may be held. */
  lemma {:induction false} SymExactly(e: Expr, env: Env, consts: set<seq<string>>, calls: bool,
          stages: set<seq<string>>)
    ensures SymOf(e, env, consts, calls, stages).Some? <==> IsSymbolic(e, env.Keys + consts, calls, stages)
    decreases e, 0
  {
    hide IsSymbolic, AllParts;
    var names := env.Keys + consts;
    match e
    case FieldOf(obj, _) =>
      SymExactly(obj, env, consts, calls, stages);
      SymbolicOf(e, Parts(obj), names, calls, stages);
      SymbolicBoth(obj, obj, names, calls, stages);
      assert Parts(obj) + Parts(obj) == Parts(obj);
    case Minus(o) =>
      SymExactly(o, env, consts, calls, stages);
      SymbolicOf(e, Parts(o), names, calls, stages);
      SymbolicBoth(o, o, names, calls, stages);
      assert Parts(o) + Parts(o) == Parts(o);
    case Binary(_, l, r) =>
      SymExactly(l, env, consts, calls, stages);
      SymExactly(r, env, consts, calls, stages);
      SymbolicOf(e, Parts(l) + Parts(r), names, calls, stages);
      SymbolicBoth(l, r, names, calls, stages);
    case Call(_, args) =>
      SymsExactly(args, env, consts, calls, stages);
      SymbolicOf(e, AllParts(args), names, calls, stages);
    case _ => SymbolicOf(e, {}, names, calls, stages);
  }

  lemma {:induction false} SymsExactly(es: seq<Expr>, env: Env, consts: set<seq<string>>, calls: bool,
          stages: set<seq<string>>)
    ensures SymsOf(es, env, consts, calls, stages).Some?
       <==> forall x :: x in AllParts(es) ==> Holdable(x, env.Keys + consts, calls, stages)
    decreases es, 0
  {
    hide Holdable;
    if |es| > 0 {
      SymExactly(es[0], env, consts, calls, stages);
      SymsExactly(es[1..], env, consts, calls, stages);
      hide Parts;
      assert AllParts(es) == Parts(es[0]) + AllParts(es[1..]);
      assert forall x :: x in AllParts(es) <==> x in Parts(es[0]) || x in AllParts(es[1..]);
    }
  }

  // ----- whole entry points -----

  /** Every statement of a body, with the names around it. */
  function Everything(stmts: seq<Stmt>, names: set<seq<string>>): set<(Stmt, set<seq<string>>)>
    decreases stmts, 0
  {
    if |stmts| == 0 then {} else EverythingIn(stmts[0], names) + Everything(stmts[1..], names)
  }

  function EverythingIn(s: Stmt, names: set<seq<string>>): set<(Stmt, set<seq<string>>)>
    decreases s, 1
  {
    {(s, names)} + if s.For? then Everything(s.body, names + {[s.name]}) else {}
  }

  /** A parameter's argument, or else its default, which may name constants only. */
  ghost predicate ParamHeld(q: Param, given: map<string, Expr>, names: set<seq<string>>, p: Program) {
    if q.name in given then IsSymbolic(given[q.name], names + p.consts.Keys, false, p.stages.Keys)
    else q.default_.Some? && IsSymbolic(q.default_.value, p.consts.Keys, false, p.stages.Keys)
  }

  /** What a schedule asks of one statement by itself. */
  ghost predicate Planned(p: Program, s: Stmt, names: set<seq<string>>) {
    match s
    case For(_, lo, hi, _, _) =>
      && IsSymbolic(lo, names + p.consts.Keys, false, p.stages.Keys)
      && IsSymbolic(hi, names + p.consts.Keys, false, p.stages.Keys)
    case CallStage(func, args) =>
      && func in p.stages && p.stages[func].server && GivenBy(p.stages[func].params, args).Some?
      && var given := GivenBy(p.stages[func].params, args).value;
         forall q :: q in p.stages[func].params ==> ParamHeld(q, given, names, p)
    case Otherwise => false
  }

  lemma {:induction false} ArgsExactly(params: seq<Param>, given: map<string, Expr>, env: Env, p: Program)
    ensures StepArgs(params, given, env, p).Some? <==> forall q :: q in params ==> ParamHeld(q, given, env.Keys, p)
    decreases |params|
  {
    hide IsSymbolic, SymOf;
    if |params| > 0 {
      var q, before := params[|params| - 1], params[..|params| - 1];
      assert params == before + [q];
      ArgsExactly(before, given, env, p);
      if q.name in given {
        SymExactly(given[q.name], env, p.consts.Keys, false, p.stages.Keys);
      } else if q.default_.Some? {
        SymExactly(q.default_.value, map[], p.consts.Keys, false, p.stages.Keys);
        var none: Env := map[];
        assert none.Keys + p.consts.Keys == p.consts.Keys;
      }
      assert StepArgs(params, given, env, p).Some?
        <==> StepArgs(before, given, env, p).Some? && ParamHeld(q, given, env.Keys, p);
      hide ParamHeld, StepArgs;
      assert q in params && forall x :: x in before ==> x in params;
    }
  }

  /** There is a schedule exactly when every statement, at whatever depth, can be planned. */
  lemma {:induction false} MadeExactly(p: Program, stmts: seq<Stmt>, env: Env)
    ensures StepsOf(p, stmts, env).Some?
       <==> forall s, names :: (s, names) in Everything(stmts, env.Keys) ==> Planned(p, s, names)
    decreases stmts, 0
  {
    hide Planned, StepFor;
    if |stmts| > 0 {
      OneMadeExactly(p, stmts[0], env);
      MadeExactly(p, stmts[1..], env);
      hide EverythingIn;
      assert forall x :: x in Everything(stmts, env.Keys)
                    <==> x in EverythingIn(stmts[0], env.Keys) || x in Everything(stmts[1..], env.Keys);
    }
  }

  lemma {:induction false} OneMadeExactly(p: Program, s: Stmt, env: Env)
    ensures StepFor(p, s, env).Some?
       <==> forall t, names :: (t, names) in EverythingIn(s, env.Keys) ==> Planned(p, t, names)
    decreases s, 1
  {
    hide IsSymbolic, SymOf, StepArgs, ParamHeld, Everything, StepsOf, GivenBy;
    assert (s, env.Keys) in EverythingIn(s, env.Keys);
    match s
    case For(x, lo, hi, _, body) =>
      SymExactly(lo, env, p.consts.Keys, false, p.stages.Keys);
      SymExactly(hi, env, p.consts.Keys, false, p.stages.Keys);
      var inner := env[[x] := Name(LoopVar, [x])];
      assert inner.Keys == env.Keys + {[x]};
      MadeExactly(p, body, inner);
      hide Planned;
      assert forall y :: y in EverythingIn(s, env.Keys)
                    <==> y == (s, env.Keys) || y in Everything(body, env.Keys + {[x]});
    case CallStage(func, args) =>
      if func in p.stages && GivenBy(p.stages[func].params, args).Some? {
        ArgsExactly(p.stages[func].params, GivenBy(p.stages[func].params, args).value, env, p);
      }
    case Otherwise =>
  }

  // ----- the files of a stage -----

  /** What a recording asks of one load or save, with the names that are symbolic there:
      a save has a path, and a path is symbolic; helper calls are allowed in it. */
  ghost predicate Recordable(b: SP.Build, f: SP.Effect, env: Env) {
    if f.path.None? then f.load else IsSymbolic(f.path.value, env.Keys + b.consts.Keys, true, b.stages)
  }

  lemma {:induction false} EntriesExactly(b: SP.Build, fs: seq<SP.Effect>, env: Env)
    ensures b.EntriesOf(fs, env).Some? <==> forall f :: f in fs ==> Recordable(b, f, env)
    decreases fs
  {
    hide IsSymbolic, SymOf;
    if |fs| > 0 {
      EntriesExactly(b, fs[1..], env);
      if fs[0].path.Some? { SymExactly(fs[0].path.value, env, b.consts.Keys, true, b.stages); }
      assert b.EntryOf(fs[0], env).Some? <==> Recordable(b, fs[0], env);
      hide Recordable, SP.Build.EntryOf;
      assert fs == [fs[0]] + fs[1..];
    }
  }

  /** Of the first n statements. */
  ghost predicate AllRecordable(b: SP.Build, body: seq<SP.Stmt>, n: nat, env: Env)
    requires n <= |body|
  {
    forall i, f :: 0 <= i < n && f in body[i].effects ==> Recordable(b, f, b.EnvAfter(body[..i], env))
  }

  /** A stage's files are recorded exactly when each load and save is recordable where it
      stands. */
  lemma {:induction false} RecordedExactly(b: SP.Build, body: seq<SP.Stmt>, env: Env)
    ensures b.Recorded(body, env).Some? <==> AllRecordable(b, body, |body|, env)
    decreases |body|
  {
    if |body| > 0 {
      var n := |body| - 1;
      RecordedExactly(b, body[..n], env);
      EntriesExactly(b, body[n].effects, b.EnvAfter(body[..n], env));
      OneMore(b, body, n, env);
      hide AllRecordable, Recordable, SP.Build.EntriesOf, SP.Build.EnvAfter;
    }
  }

  lemma OneMore(b: SP.Build, body: seq<SP.Stmt>, n: nat, env: Env)
    requires n < |body|
    ensures AllRecordable(b, body, n + 1, env)
       <==> AllRecordable(b, body[..n], n, env)
            && (forall f :: f in body[n].effects ==> Recordable(b, f, b.EnvAfter(body[..n], env)))
  {
    hide Recordable, SP.Build.EnvAfter;
    assert forall i :: 0 <= i < n ==> body[..n][..i] == body[..i] && body[..n][i] == body[i];
  }
}
