/** The state one stage reads and writes: the paths of its loads and saves as symbolic
    expressions of the step's arguments, and the paths the stage itself computes. */
module StagePaths {
  import opened ScheduleTerms
  import opened Symbolic
  import opened Formulas

  /** A load or a save, in the statement's own order. */
  datatype Effect = Effect(load: bool, wire: string, path: Option<Expr>)

  /** What the blocks inside a statement do to the names around it: those that an assignment
      sets, and those that a let sets there, because the compiler emits an assignment for it,
      or declares, in a branch that the build has decided. */
  datatype Inner = Inner(sets: seq<string>, relet: seq<string>)

  /** A statement of a stage's body, as far as paths go. A tuple let has its names and
      their joined form. */
  datatype Stmt =
    | Let(name: string, value: Expr, inner: Inner, effects: seq<Effect>)
    | LetTuple(names: seq<string>, joined: string, value: Expr, inner: Inner, effects: seq<Effect>)
    | Act(inner: Inner, effects: seq<Effect>)

  /** A recorded read or write. */
  datatype Entry = Entry(load: bool, wire: string, path: Option<Sym>)

  /** What a run of the stage touches. */
  datatype Touch = Touch(load: bool, wire: string, path: Option<Value>)

  /** The build: its constants and its stages. */
  datatype Build = Build(consts: Locals, stages: set<seq<string>>)
  {
    function PathSym(e: Expr, env: Env): Option<Sym> {
      SymOf(e, env, consts.Keys, true, stages)
    }

    // ----- what is recorded -----

    function EntryOf(f: Effect, env: Env): Option<Entry> {
      if f.path.None? then
        if f.load then Some(Entry(true, f.wire, None)) else None
      else
        var s := PathSym(f.path.value, env);
        if s.Some? then Some(Entry(f.load, f.wire, Some(s.value))) else None
    }

    function EntriesOf(fs: seq<Effect>, env: Env): Option<seq<Entry>> {
      if |fs| == 0 then Some([])
      else
        var first := EntryOf(fs[0], env);
        var rest := EntriesOf(fs[1..], env);
        if first.Some? && rest.Some? then Some([first.value] + rest.value) else None
    }

    /** A let's name, with its value when that is symbolic. */
    function Bound(env: Env, name: string, value: Expr): Env {
      var without := env - {[name]};
      var s := PathSym(value, without);
      if s.Some? then without[[name] := s.value] else without
    }

    /** Only what an assignment sets is forgotten. */
    function After(s: Stmt, env: Env): Env {
      match s
      case Let(x, e, inner, _) => Bound(env, x, e) - Keys(inner.sets)
      case LetTuple(_, joined, e, inner, _) => Bound(env, joined, e) - Keys(inner.sets)
      case Act(inner, _) => env - Keys(inner.sets)
    }

    /** Everything recorded, in order; None when the stage has no schedule. */
    function Recorded(body: seq<Stmt>, env: Env): Option<seq<Entry>> {
      if |body| == 0 then Some([])
      else
        var before := Recorded(body[..|body| - 1], env);
        var s := body[|body| - 1];
        var here := EntriesOf(s.effects, EnvAfter(body[..|body| - 1], env));
        if before.Some? && here.Some? then Some(before.value + here.value) else None
    }

    function EnvAfter(body: seq<Stmt>, env: Env): Env {
      if |body| == 0 then env else After(body[|body| - 1], EnvAfter(body[..|body| - 1], env))
    }

    // ----- what a run touches -----

    function TouchOf(f: Effect, vals: Locals, m: Meaning): Touch {
      Touch(f.load, f.wire, if f.path.Some? then Some(ValueOf(f.path.value, vals, consts, m)) else None)
    }

    function TouchesOf(fs: seq<Effect>, vals: Locals, m: Meaning): seq<Touch> {
      if |fs| == 0 then [] else [TouchOf(fs[0], vals, m)] + TouchesOf(fs[1..], vals, m)
    }

    /** The locals after a statement. What is set inside, and where a tuple's part comes
        from, is open: any value, at any place. */
    function Next(s: Stmt, vals: Locals, m: Meaning, any: seq<string> -> Value): Locals {
      match s
      case Let(x, e, inner, _) => Changed(vals, inner, any)[[x] := ValueOf(e, vals, consts, m)]
      case LetTuple(names, _, _, inner, _) => Changed(vals, inner, any) + (map x | x in Keys(names) :: any(x))
      case Act(inner, _) => Changed(vals, inner, any)
    }

    function LocalsAfter(body: seq<Stmt>, vals: Locals, m: Meaning, any: (nat, seq<string>) -> Value): Locals {
      if |body| == 0 then vals
      else Next(body[|body| - 1], LocalsAfter(body[..|body| - 1], vals, m, any), m, AnyAt(any, |body|))
    }

    function Touched(body: seq<Stmt>, vals: Locals, m: Meaning, any: (nat, seq<string>) -> Value): seq<Touch> {
      if |body| == 0 then []
      else
        Touched(body[..|body| - 1], vals, m, any) +
        TouchesOf(body[|body| - 1].effects, LocalsAfter(body[..|body| - 1], vals, m, any), m)
    }

    // ----- when the recorded paths are the run's -----

    /** The recorded path of each effect is, as a formula, the one of the stage's locals. */
    predicate EffectsRight(fs: seq<Effect>, env: Env, own: Locals, free: Place) {
      forall f :: f in fs && f.path.Some? && PathSym(f.path.value, env).Some? ==>
        Eval(PathSym(f.path.value, env).value, free, FREE) == ValueOf(f.path.value, own, consts, FREE)
    }

    /** The formulas of the locals down the body: what is set inside is unknown. */
    function Own(body: seq<Stmt>, own: Locals): Locals {
      LocalsAfter(body, own, FREE, UNSEEN)
    }

    predicate BodyRight(body: seq<Stmt>, env: Env, own: Locals, free: Place) {
      |body| == 0 ||
      (&& BodyRight(body[..|body| - 1], env, own, free)
       && EffectsRight(body[|body| - 1].effects, EnvAfter(body[..|body| - 1], env), Own(body[..|body| - 1], own), free))
    }

    /** Every recorded path is, formula for formula, the stage's own. */
    predicate AllRight(body: seq<Stmt>, args: Env) {
      var free := FreePlace(EnvNames(args), consts);
      BodyRight(body, args, ArgLocals(args, free, FREE), free)
    }

    /** In one world: the recorded paths and what the stage touches. */
    ghost predicate SameTouches(body: seq<Stmt>, args: Env, at: Place, m: Meaning, any: (nat, seq<string>) -> Value)
      requires Recorded(body, args).Some?
    {
      EvalEntries(Recorded(body, args).value, at, m) == Touched(body, ArgLocals(args, at, m), m, any)
    }
  }

  function EnvNames(env: Env): set<string> {
    set x, y | x in env && y in NamesIn(env[x]) :: y
  }

  function Changed(vals: Locals, inner: Inner, any: seq<string> -> Value): Locals {
    vals + (map x | x in Keys(inner.sets) && x in vals :: any(x)) + (map x | x in Keys(inner.relet) :: any(x))
  }

  function AnyAt(any: (nat, seq<string>) -> Value, i: nat): seq<string> -> Value {
    x => any(i, x)
  }

  function Keys(names: seq<string>): set<seq<string>> {
    set x | x in names :: [x]
  }

  function EvalEntry(e: Entry, at: Place, m: Meaning): Touch {
    Touch(e.load, e.wire, if e.path.Some? then Some(Eval(e.path.value, at, m)) else None)
  }

  function EvalEntries(es: seq<Entry>, at: Place, m: Meaning): (r: seq<Touch>)
    ensures |r| == |es| && forall i :: 0 <= i < |es| ==> r[i] == EvalEntry(es[i], at, m)
  {
    if |es| == 0 then [] else [EvalEntry(es[0], at, m)] + EvalEntries(es[1..], at, m)
  }

  // ----- the formulas tell what the locals are worth -----

  lemma ChangedTells(own: Locals, vals: Locals, inner: Inner, none: seq<string> -> Value, any: seq<string> -> Value,
          at: Place, m: Meaning)
    requires Tells(own, vals, at, m) && forall x :: none(x) == UNKNOWN
    ensures Tells(Changed(own, inner, none), Changed(vals, inner, any), at, m)
  {
    hide Worth;
    var o, v := Changed(own, inner, none), Changed(vals, inner, any);
    assert o.Keys == v.Keys;
    forall x | x in o && Clear(o[x]) ensures Worth(o[x], at, m) == v[x] {
      assert x !in Keys(inner.relet) && x !in Keys(inner.sets);
    }
  }

  lemma NextTells(b: Build, s: Stmt, own: Locals, vals: Locals, none: seq<string> -> Value, any: seq<string> -> Value,
          at: Place, m: Meaning)
    requires forall x :: none(x) == UNKNOWN
    requires m.Sound() && Tells(own, vals, at, m) && at.consts == b.consts && Literals(b.consts)
    ensures Tells(b.Next(s, own, FREE, none), b.Next(s, vals, m, any), at, m)
  {
    ChangedTells(own, vals, s.inner, none, any, at, m);
    hide Worth, Changed, ValueOf, Meaning.Sound;
    match s
    case Let(x, e, _, _) => ValueWorth(e, own, vals, at, m);
    case LetTuple(names, _, _, _, _) =>
      var o, v := b.Next(s, own, FREE, none), b.Next(s, vals, m, any);
      assert o.Keys == v.Keys;
      forall x | x in o && Clear(o[x]) ensures Worth(o[x], at, m) == v[x] {
        assert x !in Keys(names);
      }
    case Act(_, _) =>
  }

  lemma AfterNames(b: Build, s: Stmt, env: Env, names: set<string>)
    requires NamesOnly(env, names)
    ensures NamesOnly(b.After(s, env), names)
  {
    match s
    case Let(x, e, _, _) => BoundNames(b, x, e, env, names);
    case LetTuple(_, joined, e, _, _) => BoundNames(b, joined, e, env, names);
    case Act(_, _) =>
  }

  lemma BoundNames(b: Build, x: string, e: Expr, env: Env, names: set<string>)
    requires NamesOnly(env, names)
    ensures NamesOnly(b.Bound(env, x, e), names)
  {
    hide NamesIn, SymOf;
    var without := env - {[x]};
    if b.PathSym(e, without).Some? {
      SymNames(e, without, b.consts.Keys, true, b.stages, names);
    }
  }

  /** Where the formulas agree, the values do. */
  lemma {:induction false} EffectsMean(b: Build, fs: seq<Effect>, env: Env, own: Locals, vals: Locals,
          names: set<string>, at: Place, m: Meaning)
    requires m.Sound() && Tells(own, vals, at, m) && at.consts == b.consts && Literals(b.consts)
    requires NamesOnly(env, names)
    requires b.EffectsRight(fs, env, own, FreePlace(names, b.consts)) && b.EntriesOf(fs, env).Some?
    ensures EvalEntries(b.EntriesOf(fs, env).value, at, m) == b.TouchesOf(fs, vals, m)
  {
    hide Eval, ValueOf, Meaning.Sound, SymOf, Tells, NamesOnly, Worth, FreePlace, Clear;
    if |fs| > 0 {
      assert b.EffectsRight(fs[1..], env, own, FreePlace(names, b.consts));
      EffectsMean(b, fs[1..], env, own, vals, names, at, m);
      var f := fs[0];
      if f.path.Some? {
        SymNames(f.path.value, env, b.consts.Keys, true, b.stages, names);
        SymWorth(b.PathSym(f.path.value, env).value, names, at, m);
        ValueWorth(f.path.value, own, vals, at, m);
        assert f in fs;
      }
      var es := b.EntriesOf(fs, env).value;
      assert es[1..] == b.EntriesOf(fs[1..], env).value;
    }
  }

  lemma EvalAppend(a: seq<Entry>, c: seq<Entry>, at: Place, m: Meaning)
    ensures EvalEntries(a + c, at, m) == EvalEntries(a, at, m) + EvalEntries(c, at, m)
  {
    hide EvalEntry;
  }

  lemma {:induction false} BodyMeans(b: Build, body: seq<Stmt>, env: Env, own: Locals, vals: Locals,
          names: set<string>, at: Place, m: Meaning, any: (nat, seq<string>) -> Value)
    requires m.Sound() && Tells(own, vals, at, m) && at.consts == b.consts && Literals(b.consts)
    requires NamesOnly(env, names)
    requires b.BodyRight(body, env, own, FreePlace(names, b.consts)) && b.Recorded(body, env).Some?
    ensures EvalEntries(b.Recorded(body, env).value, at, m) == b.Touched(body, vals, m, any)
    ensures Tells(b.Own(body, own), b.LocalsAfter(body, vals, m, any), at, m) && NamesOnly(b.EnvAfter(body, env), names)
  {
    hide Meaning.Sound, Build.After, Build.Next, Build.EntriesOf, Build.TouchesOf, Tells, NamesOnly, FreePlace;
    hide Build.EffectsRight;
    if |body| > 0 {
      var before, s := body[..|body| - 1], body[|body| - 1];
      BodyMeans(b, before, env, own, vals, names, at, m, any);
      var e, o, v := b.EnvAfter(before, env), b.Own(before, own), b.LocalsAfter(before, vals, m, any);
      EffectsMean(b, s.effects, e, o, v, names, at, m);
      NextTells(b, s, o, v, AnyAt(UNSEEN, |body|), AnyAt(any, |body|), at, m);
      AfterNames(b, s, e, names);
      EvalAppend(b.Recorded(before, env).value, b.EntriesOf(s.effects, e).value, at, m);
    }
  }

  lemma StartTells(args: Env, at: Place, m: Meaning)
    requires m.Sound() && Literals(at.consts)
    ensures Tells(ArgLocals(args, FreePlace(EnvNames(args), at.consts), FREE), ArgLocals(args, at, m), at, m)
    ensures NamesOnly(args, EnvNames(args))
  {
    hide Eval, Worth, Clear, NamesIn, FreePlace, Meaning.Sound;
    forall x | x in args ensures NamesIn(args[x]) <= EnvNames(args) {}
    forall x | x in args
      ensures Worth(Eval(args[x], FreePlace(EnvNames(args), at.consts), FREE), at, m) == Eval(args[x], at, m)
    {
      SymWorth(args[x], EnvNames(args), at, m);
    }
  }

  /** Every recorded path, at the step's arguments and loop variables, is the path the
      stage computes through its own lets and assignments, wherever the formulas agree. */
  lemma PathsMean(b: Build, body: seq<Stmt>, args: Env, at: Place, m: Meaning, any: (nat, seq<string>) -> Value)
    requires m.Sound() && at.consts == b.consts && Literals(b.consts)
    requires b.Recorded(body, args).Some? && b.AllRight(body, args)
    ensures b.SameTouches(body, args, at, m, any)
  {
    hide Meaning.Sound, Tells, NamesOnly, FreePlace, Build.BodyRight;
    hide Build.Recorded, Build.Touched, ArgLocals, EnvNames;
    hide Build.Own, Literals;
    StartTells(args, at, m);
    var own := ArgLocals(args, FreePlace(EnvNames(args), b.consts), FREE);
    BodyMeans(b, body, args, own, ArgLocals(args, at, m), EnvNames(args), at, m, any);
  }

  // ----- and only then -----

  lemma {:induction false} TouchLengths(b: Build, fs: seq<Effect>, env: Env, vals: Locals, m: Meaning)
    ensures |b.TouchesOf(fs, vals, m)| == |fs|
    ensures b.EntriesOf(fs, env).Some? ==> |b.EntriesOf(fs, env).value| == |fs|
  {
    hide Build.EntryOf, Build.TouchOf;
    if |fs| > 0 { TouchLengths(b, fs[1..], env, vals, m); }
  }

  lemma {:induction false} SameEffects(b: Build, fs: seq<Effect>, env: Env, own: Locals, free: Place)
    requires b.EntriesOf(fs, env).Some?
    requires EvalEntries(b.EntriesOf(fs, env).value, free, FREE) == b.TouchesOf(fs, own, FREE)
    ensures b.EffectsRight(fs, env, own, free)
  {
    hide Eval, ValueOf, SymOf;
    if |fs| > 0 {
      var es, ts := b.EntriesOf(fs, env).value, b.TouchesOf(fs, own, FREE);
      assert es[1..] == b.EntriesOf(fs[1..], env).value && ts[1..] == b.TouchesOf(fs[1..], own, FREE);
      assert EvalEntries(es, free, FREE)[1..] == EvalEntries(es[1..], free, FREE);
      SameEffects(b, fs[1..], env, own, free);
      assert EvalEntries(es, free, FREE)[0] == ts[0] && EvalEntry(es[0], free, FREE) == b.TouchOf(fs[0], own, FREE);
      forall f | f in fs && f.path.Some? && b.PathSym(f.path.value, env).Some?
        ensures Eval(b.PathSym(f.path.value, env).value, free, FREE) == ValueOf(f.path.value, own, b.consts, FREE)
      {
        if f != fs[0] { assert f in fs[1..]; }
      }
    }
  }

  lemma {:induction false} SameBody(b: Build, body: seq<Stmt>, env: Env, own: Locals, free: Place)
    requires b.Recorded(body, env).Some?
    requires EvalEntries(b.Recorded(body, env).value, free, FREE) == b.Touched(body, own, FREE, UNSEEN)
    ensures b.BodyRight(body, env, own, free)
  {
    hide Build.EntriesOf, Build.TouchesOf, Build.EffectsRight, Build.EnvAfter, Build.LocalsAfter;
    if |body| > 0 {
      var before, s := body[..|body| - 1], body[|body| - 1];
      var e, o := b.EnvAfter(before, env), b.Own(before, own);
      var first, here := b.Recorded(before, env).value, b.EntriesOf(s.effects, e).value;
      EvalAppend(first, here, free, FREE);
      TouchLengths(b, s.effects, e, o, FREE);
      Parted(EvalEntries(first, free, FREE), EvalEntries(here, free, FREE),
             b.Touched(before, own, FREE, UNSEEN), b.TouchesOf(s.effects, o, FREE));
      SameBody(b, before, env, own, free);
      SameEffects(b, s.effects, e, o, free);
    }
  }

  lemma Parted(a: seq<Touch>, c: seq<Touch>, x: seq<Touch>, y: seq<Touch>)
    requires a + c == x + y && |c| == |y|
    ensures a == x && c == y
  {
    assert a == (a + c)[..|a|] && x == (x + y)[..|x|] && c == (a + c)[|a|..] && y == (x + y)[|x|..];
  }

  /** For all arguments, loop variables, sound meanings and values of what is set inside:
      the recorded paths are the ones the stage computes if and only if every recorded path
      is the stage's own as a formula. */
  lemma PathsExact(b: Build, body: seq<Stmt>, args: Env)
    requires Literals(b.consts) && b.Recorded(body, args).Some?
    ensures b.AllRight(body, args) <==>
      forall at: Place, m: Meaning, any: (nat, seq<string>) -> Value ::
        m.Sound() && at.consts == b.consts ==> b.SameTouches(body, args, at, m, any)
  {
    hide Meaning.Sound, Build.SameTouches, Build.AllRight, Literals;
    if b.AllRight(body, args) {
      forall at: Place, m: Meaning, any: (nat, seq<string>) -> Value | m.Sound() && at.consts == b.consts
        ensures b.SameTouches(body, args, at, m, any)
      {
        PathsMean(b, body, args, at, m, any);
      }
    } else {
      FreeIsSound();
      var free := FreePlace(EnvNames(args), b.consts);
      if b.SameTouches(body, args, free, FREE, UNSEEN) { FreeRight(b, body, args); }
    }
  }

  lemma FreeRight(b: Build, body: seq<Stmt>, args: Env)
    requires b.Recorded(body, args).Some?
    requires b.SameTouches(body, args, FreePlace(EnvNames(args), b.consts), FREE, UNSEEN)
    ensures b.AllRight(body, args)
  {
    hide Build.Recorded, Build.Touched, Build.BodyRight, ArgLocals, FreePlace, EnvNames;
    var free := FreePlace(EnvNames(args), b.consts);
    SameBody(b, body, args, ArgLocals(args, free, FREE), free);
  }

  // ----- the lists of a step -----

  /** `add`: an entry already listed is not listed again. */
  function Listed(es: seq<Entry>, load: bool): (r: seq<Entry>)
    ensures forall e :: e in r <==> e in es && e.load == load
    ensures forall i, j :: 0 <= i < j < |r| ==> r[i] != r[j]
  {
    if |es| == 0 then []
    else
      var before, e := Listed(es[..|es| - 1], load), es[|es| - 1];
      assert forall x :: x in es <==> x in es[..|es| - 1] || x == e;
      if e.load == load && e !in before then before + [e] else before
  }

  lemma ListedMore(es: seq<Entry>, e: Entry, load: bool)
    ensures Listed(es + [e], load)
         == if e.load == load && e !in Listed(es, load) then Listed(es, load) + [e] else Listed(es, load)
  {
    assert (es + [e])[..|es|] == es;
  }

  lemma {:induction false} NothingRecorded(b: Build, body: seq<Stmt>, env: Env, i: nat)
    requires i <= |body| && b.Recorded(body[..i], env).None?
    ensures b.Recorded(body, env).None?
    decreases |body| - i
  {
    hide Build.EntriesOf, Build.EnvAfter;
    if i == |body| {
      assert body[..i] == body;
    } else {
      assert body[..i + 1][..i] == body[..i];
      NothingRecorded(b, body, env, i + 1);
    }
  }

  /** `add`, to one of the two lists. */
  method AddEntry(e: Entry, ghost before: seq<Entry>, loaded: seq<Entry>, saved: seq<Entry>)
    returns (loaded': seq<Entry>, saved': seq<Entry>)
    requires loaded == Listed(before, true) && saved == Listed(before, false)
    ensures loaded' == Listed(before + [e], true) && saved' == Listed(before + [e], false)
  {
    ListedMore(before, e, true);
    ListedMore(before, e, false);
    hide Listed;
    loaded', saved' := loaded, saved;
    if e.load {
      if e !in loaded' { loaded' := loaded' + [e]; }
    } else {
      if e !in saved' { saved' := saved' + [e]; }
    }
  }

  lemma EntriesStep(b: Build, fs: seq<Effect>, env: Env, i: nat)
    requires i < |fs|
    ensures b.EntriesOf(fs[i..], env) ==
      var first, rest := b.EntryOf(fs[i], env), b.EntriesOf(fs[i + 1..], env);
      if first.Some? && rest.Some? then Some([first.value] + rest.value) else None
  {
    hide Build.EntryOf;
    assert fs[i..][0] == fs[i] && fs[i..][1..] == fs[i + 1..];
  }

  /** One statement's loads and saves, added to the lists. */
  method Note(b: Build, fs: seq<Effect>, env: Env, ghost before: seq<Entry>, loaded: seq<Entry>, saved: seq<Entry>)
    returns (ok: bool, loaded': seq<Entry>, saved': seq<Entry>)
    requires loaded == Listed(before, true) && saved == Listed(before, false)
    ensures ok == b.EntriesOf(fs, env).Some?
    ensures ok ==> loaded' == Listed(before + b.EntriesOf(fs, env).value, true)
    ensures ok ==> saved' == Listed(before + b.EntriesOf(fs, env).value, false)
  {
    loaded', saved' := loaded, saved;
    ghost var done := before;
    RejoinedStart(b, fs, env, before);
    hide Listed, Build.EntryOf, Build.EntriesOf, Rejoined;
    for i := 0 to |fs|
      invariant Rejoined(b, fs, env, before, done, i)
      invariant loaded' == Listed(done, true) && saved' == Listed(done, false)
    {
      var entry := b.EntryOf(fs[i], env);
      RejoinedStep(b, fs, env, before, done, i);
      if entry.None? {
        return false, loaded', saved';
      }
      loaded', saved' := AddEntry(entry.value, done, loaded', saved');
      done := done + [entry.value];
    }
    RejoinedEnd(b, fs, env, before, done);
    ok := true;
  }

  /** What is done and what is left make up the whole. */
  ghost predicate Rejoined(b: Build, fs: seq<Effect>, env: Env, before: seq<Entry>, done: seq<Entry>, i: nat)
    requires i <= |fs|
  {
    var whole, rest := b.EntriesOf(fs, env), b.EntriesOf(fs[i..], env);
    (whole.Some? <==> rest.Some?) && (whole.Some? ==> done + rest.value == before + whole.value)
  }

  lemma RejoinedStart(b: Build, fs: seq<Effect>, env: Env, before: seq<Entry>)
    ensures Rejoined(b, fs, env, before, before, 0)
  {
    assert fs[0..] == fs;
  }

  lemma RejoinedStep(b: Build, fs: seq<Effect>, env: Env, before: seq<Entry>, done: seq<Entry>, i: nat)
    requires i < |fs| && Rejoined(b, fs, env, before, done, i)
    ensures b.EntryOf(fs[i], env).None? ==> b.EntriesOf(fs, env).None?
    ensures b.EntryOf(fs[i], env).Some? ==> Rejoined(b, fs, env, before, done + [b.EntryOf(fs[i], env).value], i + 1)
  {
    EntriesStep(b, fs, env, i);
    hide Build.EntryOf, Build.EntriesOf;
    var first, rest := b.EntryOf(fs[i], env), b.EntriesOf(fs[i + 1..], env);
    if first.Some? && rest.Some? {
      assert done + ([first.value] + rest.value) == done + [first.value] + rest.value;
    }
  }

  lemma RejoinedEnd(b: Build, fs: seq<Effect>, env: Env, before: seq<Entry>, done: seq<Entry>)
    requires Rejoined(b, fs, env, before, done, |fs|)
    ensures b.EntriesOf(fs, env).Some? && done == before + b.EntriesOf(fs, env).value
  {
    assert b.EntriesOf(fs[|fs|..], env) == Some([]);
    assert done + [] == done;
  }

  /** state: the environment moves down the body while the lists grow. */
  method State(b: Build, body: seq<Stmt>, args: Env) returns (ok: bool, loaded: seq<Entry>, saved: seq<Entry>)
    ensures ok == b.Recorded(body, args).Some?
    ensures ok ==>
        loaded == Listed(b.Recorded(body, args).value, true) && saved == Listed(b.Recorded(body, args).value, false)
  {
    hide Listed, Build.EntriesOf, SymOf, Build.After;
    var env := args;
    loaded, saved := [], [];
    ghost var all: seq<Entry> := [];
    EmptyListed();
    for i := 0 to |body|
      invariant b.Recorded(body[..i], args) == Some(all) && env == b.EnvAfter(body[..i], args)
      invariant loaded == Listed(all, true) && saved == Listed(all, false)
    {
      assert body[..i + 1][..i] == body[..i];
      var s := body[i];
      var fine, r, w := Note(b, s.effects, env, all, loaded, saved);
      if !fine {
        NothingRecorded(b, body, args, i + 1);
        return false, loaded, saved;
      }
      all := all + b.EntriesOf(s.effects, env).value;
      loaded, saved := r, w;
      env := b.After(s, env);
    }
    assert body[..|body|] == body;
    ok := true;
  }

  lemma EmptyListed()
    ensures Listed([], true) == [] && Listed([], false) == []
  {}

  /** The lists hold what a run of the stage loads and what it saves, and nothing else. */
  lemma ListsAreExact(b: Build, body: seq<Stmt>, args: Env, at: Place, m: Meaning, any: (nat, seq<string>) -> Value,
          touch: Touch)
    requires m.Sound() && at.consts == b.consts && Literals(b.consts)
    requires b.Recorded(body, args).Some? && b.AllRight(body, args)
    ensures touch in b.Touched(body, ArgLocals(args, at, m), m, any)
       <==> exists e :: e in Listed(b.Recorded(body, args).value, touch.load) && EvalEntry(e, at, m) == touch
  {
    hide Meaning.Sound, Build.Recorded, Build.Touched, Build.AllRight, EvalEntry, ArgLocals;
    PathsMean(b, body, args, at, m, any);
    var es := b.Recorded(body, args).value;
    var touches := EvalEntries(es, at, m);
    if touch in touches {
      var i :| 0 <= i < |touches| && touches[i] == touch;
      assert es[i] in es && es[i].load == touch.load by { LoadKept(es[i], at, m); }
      assert es[i] in Listed(es, touch.load);
    }
    if e :| e in Listed(es, touch.load) && EvalEntry(e, at, m) == touch {
      var i :| 0 <= i < |es| && es[i] == e;
      assert touches[i] == touch;
    }
  }

  lemma LoadKept(e: Entry, at: Place, m: Meaning)
    ensures EvalEntry(e, at, m).load == e.load
  {}

  /** The stage's parameters when it starts: the values of the step's arguments. */
  function ArgLocals(args: Env, at: Place, m: Meaning): Locals {
    map x | x in args :: Eval(args[x], at, m)
  }
}
