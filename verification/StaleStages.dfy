/** Stages whose recorded path is not the one they compute: what each way of keeping a name
    that has changed, or of losing one that has not, records. */
module StaleStages {
  import opened ScheduleTerms
  import opened Symbolic
  import opened Formulas
  import opened StagePaths
  import opened StaleNames

  const NONE: Inner := Inner([], [])

  function Load(x: seq<string>): Stmt {
    Act(NONE, [Effect(true, "W", Some(Ident(x)))])
  }

  function ReadAs(b: Build, x: seq<string>, env: Env): Sym {
    if x in env then env[x] else Name(BuildParam, x)
  }

  predicate Quiet(ss: seq<Stmt>) {
    forall i :: 0 <= i < |ss| ==> ss[i].effects == []
  }

  lemma {:induction false} NoneRecorded(b: Build, ss: seq<Stmt>, args: Env)
    requires Quiet(ss)
    ensures b.Recorded(ss, args) == Some([])
  {
    hide Build.EnvAfter;
    if |ss| > 0 {
      var n := |ss| - 1;
      NoneRecorded(b, ss[..n], args);
      assert ss[n].effects == [];
      var none: seq<Entry> := [];
      assert none + none == none;
    }
  }

  lemma {:induction false} NoneTouched(b: Build, ss: seq<Stmt>, vals: Locals, m: Meaning,
          any: (nat, seq<string>) -> Value)
    requires Quiet(ss)
    ensures b.Touched(ss, vals, m, any) == []
  {
    hide Build.LocalsAfter;
    if |ss| > 0 {
      var n := |ss| - 1;
      NoneTouched(b, ss[..n], vals, m, any);
      assert ss[n].effects == [];
    }
  }

  lemma OneEntry(b: Build, f: Effect, env: Env)
    requires b.EntryOf(f, env).Some?
    ensures b.EntriesOf([f], env) == Some([b.EntryOf(f, env).value])
  {
    hide Build.EntryOf;
    assert [f][1..] == [];
    assert b.EntriesOf([f][1..], env) == Some([]);
    assert [b.EntryOf(f, env).value] + [] == [b.EntryOf(f, env).value];
  }

  lemma OneTouch(b: Build, f: Effect, vals: Locals, m: Meaning)
    ensures b.TouchesOf([f], vals, m) == [b.TouchOf(f, vals, m)]
  {
    hide Build.TouchOf;
    assert [f][1..] == [];
    assert b.TouchesOf([f][1..], vals, m) == [];
  }

  /** A load after statements without effects is recorded under the name's value, or as
      the constant. */
  lemma LoadRecorded(b: Build, ss: seq<Stmt>, x: seq<string>, args: Env)
    requires Quiet(ss) && (x in b.EnvAfter(ss, args) || x in b.consts)
    ensures b.Recorded(ss + [Load(x)], args)
         == Some([Entry(true, "W", Some(ReadAs(b, x, b.EnvAfter(ss, args))))])
  {
    hide Build.EnvAfter, Build.EntriesOf;
    var body, env := ss + [Load(x)], b.EnvAfter(ss, args);
    assert body[..|body| - 1] == ss && body[|body| - 1] == Load(x);
    NoneRecorded(b, ss, args);
    OneEntry(b, Load(x).effects[0], env);
    var e := Entry(true, "W", Some(ReadAs(b, x, env)));
    assert b.EntriesOf(Load(x).effects, env) == Some([e]);
    assert [] + [e] == [e];
  }

  lemma LoadTouched(b: Build, ss: seq<Stmt>, x: seq<string>, vals: Locals, m: Meaning,
          any: (nat, seq<string>) -> Value)
    requires Quiet(ss) && x in b.LocalsAfter(ss, vals, m, any)
    ensures b.Touched(ss + [Load(x)], vals, m, any)
         == [Touch(true, "W", Some(b.LocalsAfter(ss, vals, m, any)[x]))]
  {
    hide Build.LocalsAfter, Build.TouchesOf;
    var body, own := ss + [Load(x)], b.LocalsAfter(ss, vals, m, any);
    assert body[..|body| - 1] == ss && body[|body| - 1] == Load(x);
    NoneTouched(b, ss, vals, m, any);
    OneTouch(b, Load(x).effects[0], own, m);
    var t := Touch(true, "W", Some(own[x]));
    assert b.TouchesOf(Load(x).effects, own, m) == [t];
  }

  /** If the last load uses a stale name, the condition fails. */
  lemma LoadIsStale(b: Build, ss: seq<Stmt>, x: seq<string>, n: Names)
    requires x in NamesDown(b, ss, n).env || x in b.consts
    requires NamesDown(b, ss, n).Stale(x, b.consts.Keys)
    ensures !NoStale(b, ss + [Load(x)], n)
  {
    hide NamesDown, Names.Stale;
    var body := ss + [Load(x)];
    assert body[..|body| - 1] == ss && body[|body| - 1] == Load(x);
    var f := Load(x).effects[0];
    assert f in Load(x).effects && NamesDown(b, ss, n).Uses(f.path.value, b.consts.Keys);
  }

  /** The three together. */
  lemma LoadAfter(b: Build, ss: seq<Stmt>, x: seq<string>, args: Env, vals: Locals, m: Meaning,
          any: (nat, seq<string>) -> Value, n: Names)
    requires Quiet(ss) && NamesDown(b, ss, Start(args)) == n && (x in n.env || x in b.consts)
    requires n.Stale(x, b.consts.Keys) && x in b.LocalsAfter(ss, vals, m, any)
    ensures b.Recorded(ss + [Load(x)], args) == Some([Entry(true, "W", Some(ReadAs(b, x, n.env)))])
    ensures b.Touched(ss + [Load(x)], vals, m, any)
         == [Touch(true, "W", Some(b.LocalsAfter(ss, vals, m, any)[x]))]
    ensures !NoStale(b, ss + [Load(x)], Start(args))
  {
    hide NamesDown, Names.Stale, NoStale, Build.EnvAfter, Build.LocalsAfter, Build.Recorded, Build.Touched, Quiet, Load;
    SameEnv(b, ss, Start(args));
    LoadRecorded(b, ss, x, args);
    LoadTouched(b, ss, x, vals, m, any);
    LoadIsStale(b, ss, x, Start(args));
  }

  lemma OneDown(b: Build, s: Stmt, n: Names, vals: Locals, m: Meaning, any: (nat, seq<string>) -> Value)
    ensures NamesDown(b, [s], n) == NamesAfter(b, s, n)
    ensures b.LocalsAfter([s], vals, m, any) == b.Next(s, vals, m, AnyAt(any, 1))
  {
    hide NamesAfter, Build.Next;
    assert [s][..0] == [] && NamesDown(b, [s][..0], n) == n && b.LocalsAfter([s][..0], vals, m, any) == vals;
  }

  lemma TwoDown(b: Build, s: Stmt, t: Stmt, n: Names, vals: Locals, m: Meaning, any: (nat, seq<string>) -> Value)
    ensures NamesDown(b, [s, t], n) == NamesAfter(b, t, NamesAfter(b, s, n))
    ensures b.LocalsAfter([s, t], vals, m, any)
         == b.Next(t, b.Next(s, vals, m, AnyAt(any, 1)), m, AnyAt(any, 2))
  {
    hide NamesAfter, Build.Next;
    OneDown(b, s, n, vals, m, any);
    assert [s, t][..1] == [s];
  }

  lemma KeysOf(x: string)
    ensures Keys([]) == {} && Keys([x]) == {[x]}
  {}

  lemma NothingChanged(vals: Locals, any: seq<string> -> Value)
    ensures Changed(vals, NONE, any) == vals
  {
    KeysOf("");
  }

  /** A let's name after it: recorded if its value is symbolic, and dirty if that uses a
      stale name. */
  lemma LetDown(b: Build, x: string, e: Expr, n: Names)
    requires n.dirty == {}
    ensures var env, after := n.env - {[x]}, NamesAfter(b, Let(x, e, NONE, []), n);
      var s := b.PathSym(e, env);
      && after.locals == n.locals + {[x]}
      && after.env == (if s.Some? then env[[x] := s.value] else env)
      && after.dirty == (if s.Some? && n.Without([x]).Uses(e, b.consts.Keys) then {[x]} else {})
  {
    hide Build.PathSym, Names.Uses;
    KeysOf(x);
    assert b.Bound(n.env, x, e) - {} == b.Bound(n.env, x, e);
  }

  lemma LetNext(b: Build, x: string, e: Expr, vals: Locals, m: Meaning, any: seq<string> -> Value)
    ensures b.Next(Let(x, e, NONE, []), vals, m, any) == vals[[x] := ValueOf(e, vals, b.consts, m)]
  {
    hide ValueOf, Changed;
    NothingChanged(vals, any);
  }

  // ----- a let inside a block -----

  const NESTED: seq<Stmt> := [Let("p", StrLit("a"), NONE, []), Act(Inner([], ["p"]), [])]

  lemma NestedNames(b: Build, args: Env)
    ensures var n := NamesDown(b, NESTED, Start(args)); ["p"] in n.env && n.env[["p"]] == Str("a") && ["p"] in n.dirty
  {
    var n := Names((args - {["p"]})[["p"] := Str("a")], args.Keys + {["p"]}, {});
    TwoDown(b, NESTED[0], NESTED[1], Start(args), map[], FREE, UNSEEN);
    LetDown(b, "p", StrLit("a"), Start(args));
    KeysOf("p");
    assert NamesAfter(b, NESTED[0], Start(args)) == n;
    assert n.env - {} == n.env;
  }

  lemma NestedLocals(b: Build, vals: Locals, m: Meaning, any: (nat, seq<string>) -> Value)
    ensures var own := b.LocalsAfter(NESTED, vals, m, any); ["p"] in own && own[["p"]] == any(2, ["p"])
  {
    TwoDown(b, NESTED[0], NESTED[1], Start(map[]), vals, m, any);
    KeysOf("p");
    hide NamesDown, NamesAfter, ValueOf, Build.LocalsAfter;
  }

  /** `let p = "a"`, and a branch with a `let p` of its own, which is emitted as an assignment
      to the same variable: "a" is recorded, whatever the stage loads. */
  lemma NestedLetKeepsStale(b: Build, args: Env, vals: Locals, m: Meaning, any: (nat, seq<string>) -> Value)
    ensures var body := [Let("p", StrLit("a"), NONE, []), Act(Inner([], ["p"]), [])] + [Load(["p"])];
      && b.Recorded(body, args) == Some([Entry(true, "W", Some(Str("a")))])
      && b.Touched(body, vals, m, any) == [Touch(true, "W", Some(any(2, ["p"])))]
      && !NoStale(b, body, Start(args))
  {
    NestedNames(b, args);
    NestedLocals(b, vals, m, any);
    hide NamesDown, NoStale, Build.LocalsAfter, Build.Recorded, Build.Touched, Load;
    LoadAfter(b, NESTED, ["p"], args, vals, m, any, NamesDown(b, NESTED, Start(args)));
  }

  // ----- names of constants -----

  const HIDDEN: seq<Stmt> := [Let("N", Other(0), NONE, [])]

  lemma HiddenNames(b: Build, args: Env)
    ensures NamesDown(b, HIDDEN, Start(args)) == Names(args - {["N"]}, args.Keys + {["N"]}, {})
  {
    OneDown(b, HIDDEN[0], Start(args), map[], FREE, UNSEEN);
    LetDown(b, "N", Other(0), Start(args));
  }

  lemma HiddenLocals(b: Build, vals: Locals, m: Meaning, any: (nat, seq<string>) -> Value)
    ensures b.LocalsAfter(HIDDEN, vals, m, any) == vals[["N"] := m.other(0, vals)]
  {
    OneDown(b, HIDDEN[0], Start(map[]), vals, m, any);
    LetNext(b, "N", Other(0), vals, m, AnyAt(any, 1));
    hide NamesDown, NamesAfter, Build.LocalsAfter, Build.Next;
  }

  /** A local that is not symbolic and has a constant's name is recorded as the constant. */
  lemma ConstantTaken(b: Build, args: Env, vals: Locals, m: Meaning, any: (nat, seq<string>) -> Value)
    requires ["N"] in b.consts
    ensures var body := [Let("N", Other(0), NONE, [])] + [Load(["N"])];
      && b.Recorded(body, args) == Some([Entry(true, "W", Some(Name(BuildParam, ["N"])))])
      && b.Touched(body, vals, m, any) == [Touch(true, "W", Some(m.other(0, vals)))]
      && !NoStale(b, body, Start(args))
  {
    HiddenNames(b, args);
    HiddenLocals(b, vals, m, any);
    hide NamesDown, NoStale, Build.LocalsAfter, Build.Recorded, Build.Touched, Load;
    LoadAfter(b, HIDDEN, ["N"], args, vals, m, any, Names(args - {["N"]}, args.Keys + {["N"]}, {}));
  }

  const SPLIT: Expr := Call(["split"], [Ident(["x"])])
  const TAKEN: seq<Stmt> := [LetTuple(["N", "b"], "N_b", Other(0), NONE, [])]
  const JOINED: seq<Stmt> := [LetTuple(["a", "b"], "a_b", SPLIT, NONE, [])]

  lemma OtherIsNone(b: Build, env: Env)
    ensures b.PathSym(Other(0), env) == None
  {}

  lemma TakenNames(b: Build, args: Env)
    requires ["N"] !in args
    ensures var n := NamesDown(b, TAKEN, Start(args)); ["N"] !in n.env && ["N"] in n.locals
  {
    hide DirtyAfter, NamesDown, Build.PathSym;
    OneDown(b, TAKEN[0], Start(args), map[], FREE, UNSEEN);
    OtherIsNone(b, args - {["N_b"]});
    assert "N" in ["N", "b"] && ["N"] in Keys(["N", "b"]);
  }

  lemma PartLocal(b: Build, s: Stmt, x: string, vals: Locals, m: Meaning, any: (nat, seq<string>) -> Value)
    requires s.LetTuple? && x in s.names
    ensures var own := b.LocalsAfter([s], vals, m, any); [x] in own && own[[x]] == any(1, [x])
  {
    OneDown(b, s, Start(map[]), vals, m, any);
    assert [x] in Keys(s.names);
    hide NamesDown, NamesAfter, Build.LocalsAfter, Changed;
  }

  /** `let (N, b) = ...` with the name of a constant N: the local hides it, and the constant
      is recorded. */
  lemma TupleTakesConstant(b: Build, args: Env, vals: Locals, m: Meaning, any: (nat, seq<string>) -> Value)
    requires ["N"] in b.consts && ["N"] !in args
    ensures var body := [LetTuple(["N", "b"], "N_b", Other(0), NONE, [])] + [Load(["N"])];
      && b.Recorded(body, args) == Some([Entry(true, "W", Some(Name(BuildParam, ["N"])))])
      && b.Touched(body, vals, m, any) == [Touch(true, "W", Some(any(1, ["N"])))]
      && !NoStale(b, body, Start(args))
  {
    TakenNames(b, args);
    assert "N" in TAKEN[0].names;
    PartLocal(b, TAKEN[0], "N", vals, m, any);
    hide NamesDown, NoStale, Build.LocalsAfter, Build.Recorded, Build.Touched, Load;
    LoadAfter(b, TAKEN, ["N"], args, vals, m, any, NamesDown(b, TAKEN, Start(args)));
  }

  lemma SplitIsSymbolic(b: Build, env: Env)
    requires ["x"] in env && b.stages == {}
    ensures b.PathSym(SPLIT, env) == Some(Apply(["split"], [env[["x"]]]))
  {
    assert |"split"| == 5 && |"load"| == 4 && |"save"| == 4 && |"load_all"| == 8;
    assert ["split"][0] == "split" && ["load"][0] == "load" && ["save"][0] == "save" && ["load_all"][0] == "load_all";
    assert ["split"] !in RESERVED;
    var args := [Ident(["x"])];
    assert args[1..] == [] && SymsOf(args[1..], env, b.consts.Keys, true, b.stages) == Some([]);
    assert SymsOf(args, env, b.consts.Keys, true, b.stages) == Some([env[["x"]]] + []);
    assert [env[["x"]]] + [] == [env[["x"]]];
  }

  lemma JoinedApart()
    ensures ["a_b"] !in Keys(["a", "b"]) && ["a_b"] != ["x"]
  {
    assert |"a_b"| == 3 && |"x"| == |"a"| == |"b"| == 1;
    assert ["a_b"][0] != ["x"][0];
    forall y | y in ["a", "b"] ensures [y] != ["a_b"] { assert [y][0] == y && ["a_b"][0] == "a_b"; }
  }

  lemma JoinedNames(b: Build, args: Env)
    requires ["a_b"] in args && ["x"] in args && b.stages == {}
    ensures var n := NamesDown(b, JOINED, Start(args));
      ["a_b"] in n.env && n.env[["a_b"]] == Apply(["split"], [args[["x"]]]) && ["a_b"] in n.dirty
  {
    OneDown(b, JOINED[0], Start(args), map[], FREE, UNSEEN);
    JoinedApart();
    KeysOf("x");
    SplitIsSymbolic(b, args - {["a_b"]});
    hide Build.PathSym, NamesDown;
  }

  lemma JoinedLocals(b: Build, vals: Locals, m: Meaning, any: (nat, seq<string>) -> Value)
    requires ["a_b"] in vals
    ensures var own := b.LocalsAfter(JOINED, vals, m, any); ["a_b"] in own && own[["a_b"]] == vals[["a_b"]]
  {
    OneDown(b, JOINED[0], Start(map[]), vals, m, any);
    JoinedApart();
    NothingChanged(vals, AnyAt(any, 1));
    hide NamesDown, NamesAfter, Build.LocalsAfter, Changed;
  }

  /** A tuple is recorded under its joined name, which may be another local's. */
  lemma JoinedTaken(b: Build, args: Env, vals: Locals, m: Meaning, any: (nat, seq<string>) -> Value)
    requires ["a_b"] in args && ["x"] in args && ["a_b"] in vals && b.stages == {}
    ensures var body := [LetTuple(["a", "b"], "a_b", Call(["split"], [Ident(["x"])]), NONE, [])] + [Load(["a_b"])];
      && b.Recorded(body, args) == Some([Entry(true, "W", Some(Apply(["split"], [args[["x"]]])))])
      && b.Touched(body, vals, m, any) == [Touch(true, "W", Some(vals[["a_b"]]))]
      && !NoStale(b, body, Start(args))
  {
    JoinedNames(b, args);
    JoinedLocals(b, vals, m, any);
    hide NamesDown, NoStale, Build.LocalsAfter, Build.Recorded, Build.Touched, Load;
    LoadAfter(b, JOINED, ["a_b"], args, vals, m, any, NamesDown(b, JOINED, Start(args)));
  }

  // ----- a name bound anew from itself -----

  const NEXT: Expr := Binary(Add, Ident(["N"]), IntLit(1))
  const REBOUND: seq<Stmt> := [Let("N", IntLit(5), NONE, []), Let("N", NEXT, NONE, [])]
  const NEXT_SYM: Sym := Bin(Add, Name(BuildParam, ["N"]), Num(1))

  lemma NextReads(b: Build, n: Names)
    requires ["N"] in b.consts && ["N"] in n.locals
    ensures b.PathSym(NEXT, n.env - {["N"]}) == Some(NEXT_SYM)
    ensures n.Without(["N"]).Uses(NEXT, b.consts.Keys)
  {
    var env := n.env - {["N"]};
    assert ["N"] !in env;
    assert b.PathSym(Ident(["N"]), env) == Some(Name(BuildParam, ["N"])) && b.PathSym(IntLit(1), env) == Some(Num(1));
    assert n.Without(["N"]).Uses(Ident(["N"]), b.consts.Keys);
  }

  lemma FiveFresh(b: Build, n: Names)
    ensures !n.Without(["N"]).Uses(IntLit(5), b.consts.Keys)
  {}

  lemma NextIsSix(b: Build, vals: Locals, m: Meaning)
    requires m.Sound() && ["N"] in vals && vals[["N"]] == IntV(5)
    ensures ValueOf(NEXT, vals, b.consts, m) == IntV(6)
  {
    assert m.binary(Add, IntV(5), IntV(1)) == IntV(5 + 1);
    hide Meaning.Sound;
  }

  lemma ReboundNames(b: Build, args: Env)
    requires ["N"] in b.consts
    ensures var n := NamesDown(b, REBOUND, Start(args));
      ["N"] in n.env && n.env[["N"]] == NEXT_SYM && ["N"] in n.dirty
  {
    hide NamesDown, NamesAfter, Names.Uses, Names.Without;
    var n := Names((args - {["N"]})[["N"] := Num(5)], args.Keys + {["N"]}, {});
    TwoDown(b, REBOUND[0], REBOUND[1], Start(args), map[], FREE, UNSEEN);
    LetDown(b, "N", IntLit(5), Start(args));
    assert b.PathSym(IntLit(5), args - {["N"]}) == Some(Num(5));
    assert NamesAfter(b, REBOUND[0], Start(args)) == n by { assert n.dirty == {}; FiveFresh(b, Start(args)); }
    NextReads(b, n);
    LetDown(b, "N", NEXT, n);
  }

  lemma ReboundLocals(b: Build, vals: Locals, m: Meaning, any: (nat, seq<string>) -> Value)
    requires m.Sound()
    ensures var own := b.LocalsAfter(REBOUND, vals, m, any); ["N"] in own && own[["N"]] == IntV(6)
  {
    hide NamesDown, NamesAfter, Build.LocalsAfter, Build.Next, Meaning.Sound;
    TwoDown(b, REBOUND[0], REBOUND[1], Start(map[]), vals, m, any);
    LetNext(b, "N", IntLit(5), vals, m, AnyAt(any, 1));
    var own := vals[["N"] := IntV(5)];
    LetNext(b, "N", NEXT, own, m, AnyAt(any, 2));
    NextIsSix(b, own, m);
  }

  /** A local with a constant's name, bound anew from itself: the name is forgotten first,
      so the constant is read. */
  lemma RebindTakesConstant(b: Build, args: Env, vals: Locals, m: Meaning, any: (nat, seq<string>) -> Value)
    requires ["N"] in b.consts && m.Sound()
    ensures var next := Binary(Add, Ident(["N"]), IntLit(1));
      var body := [Let("N", IntLit(5), NONE, []), Let("N", next, NONE, [])] + [Load(["N"])];
      && b.Recorded(body, args) == Some([Entry(true, "W", Some(Bin(Add, Name(BuildParam, ["N"]), Num(1))))])
      && b.Touched(body, vals, m, any) == [Touch(true, "W", Some(IntV(6)))]
      && !NoStale(b, body, Start(args))
  {
    ReboundNames(b, args);
    ReboundLocals(b, vals, m, any);
    hide NamesDown, NoStale, Build.LocalsAfter, Build.Recorded, Build.Touched, Load, Meaning.Sound;
    LoadAfter(b, REBOUND, ["N"], args, vals, m, any, NamesDown(b, REBOUND, Start(args)));
  }
}
