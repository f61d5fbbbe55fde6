/** The same condition on names alone: which names a stage's recorded environment has with
    another value than the stage's local, and which paths use them. */
module StaleNames {
  import opened ScheduleTerms
  import opened Symbolic
  import opened Formulas
  import opened StagePaths

  /** What is known of the names at a statement: the recorded ones, the stage's locals, and
      the recorded ones whose local is worth something else. */
  datatype Names = Names(env: Env, locals: set<seq<string>>, dirty: set<seq<string>>)
  {
    /** Reading the name gives another value than the stage's. */
    predicate Stale(x: seq<string>, consts: set<seq<string>>) {
      || x in dirty
      || (x in locals && x !in env && x in consts)
      || (x !in locals && x in env && x in consts)
    }

    predicate Uses(e: Expr, consts: set<seq<string>>) {
      match e
      case Ident(x) => Stale(x, consts)
      case FieldOf(obj, _) => Uses(obj, consts)
      case Minus(o) => Uses(o, consts)
      case Binary(_, l, r) => Uses(l, consts) || Uses(r, consts)
      case Call(_, args) => exists i :: 0 <= i < |args| && Uses(args[i], consts)
      case _ => false
    }

    function Without(x: seq<string>): Names {
      Names(env - {x}, locals, dirty - {x})
    }
  }

  function LocalNames(s: Stmt, locals: set<seq<string>>): set<seq<string>> {
    match s
    case Let(x, _, inner, _) => locals + Keys(inner.relet) + {[x]}
    case LetTuple(names, _, _, inner, _) => locals + Keys(inner.relet) + Keys(names)
    case Act(inner, _) => locals + Keys(inner.relet)
  }

  /** A let's name is dirty when its value uses a stale name; what is set inside, and the
      parts of a tuple, are dirty while they are recorded. */
  function DirtyAfter(b: Build, s: Stmt, n: Names): set<seq<string>> {
    var env := b.After(s, n.env);
    match s
    case Let(x, e, inner, _) =>
      var stale := b.PathSym(e, n.env - {[x]}).Some? && n.Without([x]).Uses(e, b.consts.Keys);
      (n.dirty + Keys(inner.relet) - {[x]} + if stale then {[x]} else {}) * env.Keys
    case LetTuple(names, joined, _, inner, _) =>
      (n.dirty + Keys(inner.relet) + Keys(names) + ({[joined]} * n.locals)) * env.Keys
    case Act(inner, _) => (n.dirty + Keys(inner.relet)) * env.Keys
  }

  function NamesAfter(b: Build, s: Stmt, n: Names): Names {
    Names(b.After(s, n.env), LocalNames(s, n.locals), DirtyAfter(b, s, n))
  }

  function NamesDown(b: Build, body: seq<Stmt>, n: Names): Names {
    if |body| == 0 then n else NamesAfter(b, body[|body| - 1], NamesDown(b, body[..|body| - 1], n))
  }

  /** No load or save has a path that uses a stale name. */
  predicate FreshEffects(b: Build, fs: seq<Effect>, n: Names) {
    forall f :: f in fs && f.path.Some? && b.PathSym(f.path.value, n.env).Some? ==> !n.Uses(f.path.value, b.consts.Keys)
  }

  predicate NoStale(b: Build, body: seq<Stmt>, n: Names) {
    |body| == 0 ||
    (&& NoStale(b, body[..|body| - 1], n)
     && FreshEffects(b, body[|body| - 1].effects, NamesDown(b, body[..|body| - 1], n)))
  }

  function Start(args: Env): Names {
    Names(args, args.Keys, {})
  }

  /** Every name that an expression uses is a local or a constant: what compiles. */
  predicate ScopedStmt(b: Build, s: Stmt, locals: set<seq<string>>) {
    && (forall f :: f in s.effects && f.path.Some? ==> Scoped(f.path.value, locals, b.consts.Keys))
    && (s.Let? ==> Scoped(s.value, locals, b.consts.Keys))
  }

  predicate AllScoped(b: Build, body: seq<Stmt>, n: Names) {
    |body| == 0 ||
    (&& AllScoped(b, body[..|body| - 1], n)
     && ScopedStmt(b, body[|body| - 1], NamesDown(b, body[..|body| - 1], n).locals))
  }

  // ----- readings -----

  /** The names say which formulas are the same. */
  ghost predicate Fits(b: Build, n: Names, own: Locals, free: Place) {
    && own.Keys == n.locals && n.dirty <= n.env.Keys * n.locals
    && forall x :: x in n.env && x in own && x !in n.dirty ==> own[x] == Eval(n.env[x], free, FREE)
  }

  lemma {:induction false} FreshReading(b: Build, e: Expr, n: Names, own: Locals, free: Place)
    requires Fits(b, n, own, free) && free.consts == b.consts && Scoped(e, n.locals, b.consts.Keys)
    requires b.PathSym(e, n.env).Some? && !n.Uses(e, b.consts.Keys)
    ensures Eval(b.PathSym(e, n.env).value, free, FREE) == ValueOf(e, own, b.consts, FREE)
    decreases e, 0
  {
    hide Fits, Names.Stale;
    match e
    case Ident(x) => FreshName(b, x, n, own, free);
    case FieldOf(obj, _) => FreshReading(b, obj, n, own, free);
    case Minus(o) =>
      FreshReading(b, o, n, own, free);
      FreeIsSound();
      LiteralSign(b.PathSym(o, n.env).value, free, FREE);
    case Binary(_, l, r) =>
      hide FreeBinary;
      FreshReading(b, l, n, own, free);
      FreshReading(b, r, n, own, free);
    case Call(_, args) => FreshReadings(b, args, n, own, free);
    case _ =>
  }

  lemma FreshName(b: Build, x: seq<string>, n: Names, own: Locals, free: Place)
    requires Fits(b, n, own, free) && free.consts == b.consts && (x in n.locals || x in b.consts)
    requires b.PathSym(Ident(x), n.env).Some? && !n.Stale(x, b.consts.Keys)
    ensures Eval(b.PathSym(Ident(x), n.env).value, free, FREE) == ValueOf(Ident(x), own, b.consts, FREE)
  {
    if x !in n.env { ConstMeans(x, free, FREE); }
  }

  lemma {:induction false} FreshReadings(b: Build, es: seq<Expr>, n: Names, own: Locals, free: Place)
    requires Fits(b, n, own, free) && free.consts == b.consts
    requires forall i :: 0 <= i < |es| ==> Scoped(es[i], n.locals, b.consts.Keys) && !n.Uses(es[i], b.consts.Keys)
    requires SymsOf(es, n.env, b.consts.Keys, true, b.stages).Some?
    ensures Evals(SymsOf(es, n.env, b.consts.Keys, true, b.stages).value, free, FREE)
         == ValuesOf(es, own, b.consts, FREE)
    decreases es, 0
  {
    hide Fits, Names.Uses, Scoped, SymOf, Eval, ValueOf;
    if |es| > 0 {
      FreshReading(b, es[0], n, own, free);
      forall i | 0 <= i < |es[1..]|
        ensures Scoped(es[1..][i], n.locals, b.consts.Keys) && !n.Uses(es[1..][i], b.consts.Keys)
      {
        assert es[1..][i] == es[i + 1];
      }
      FreshReadings(b, es[1..], n, own, free);
      var ss := SymsOf(es, n.env, b.consts.Keys, true, b.stages).value;
      assert ss[1..] == SymsOf(es[1..], n.env, b.consts.Keys, true, b.stages).value;
    }
  }

  // ----- down the body -----

  lemma FitsWithout(b: Build, x: seq<string>, n: Names, own: Locals, free: Place)
    requires Fits(b, n, own, free)
    ensures Fits(b, n.Without(x), own, free)
  {
    hide Eval;
  }

  lemma Untouched(own: Locals, inner: Inner, none: seq<string> -> Value)
    ensures Changed(own, inner, none).Keys == own.Keys + Keys(inner.relet)
    ensures forall x :: x in own && x !in Keys(inner.sets) && x !in Keys(inner.relet) ==>
        Changed(own, inner, none)[x] == own[x]
  {}

  lemma LetReading(b: Build, x: seq<string>, e: Expr, n: Names, own: Locals, free: Place)
    requires Fits(b, n, own, free) && free.consts == b.consts && Scoped(e, n.locals, b.consts.Keys)
    ensures var sym := b.PathSym(e, n.env - {x});
      sym.Some? && !n.Without(x).Uses(e, b.consts.Keys) ==>
        Eval(sym.value, free, FREE) == ValueOf(e, own, b.consts, FREE)
  {
    hide Fits, Eval, ValueOf, Scoped, SymOf, Names.Uses;
    FitsWithout(b, x, n, own, free);
    if b.PathSym(e, n.env - {x}).Some? && !n.Without(x).Uses(e, b.consts.Keys) {
      FreshReading(b, e, n.Without(x), own, free);
    }
  }

  lemma LetFits(b: Build, s: Stmt, n: Names, own: Locals, free: Place, none: seq<string> -> Value)
    requires s.Let? && Fits(b, n, own, free) && free.consts == b.consts && ScopedStmt(b, s, n.locals)
    ensures Fits(b, NamesAfter(b, s, n), b.Next(s, own, FREE, none), free)
  {
    var name := [s.name];
    LetReading(b, name, s.value, n, own, free);
    Untouched(own, s.inner, none);
    hide Eval, ValueOf, Scoped, SymOf, Names.Uses, Changed, Keys;
    var after, next := NamesAfter(b, s, n), b.Next(s, own, FREE, none);
    forall x | x in after.env && x in next && x !in after.dirty ensures next[x] == Eval(after.env[x], free, FREE) {
      if x != name {
        assert x in n.env && x !in n.dirty && x !in Keys(s.inner.relet) && x !in Keys(s.inner.sets);
      }
    }
  }

  lemma TupleFits(b: Build, s: Stmt, n: Names, own: Locals, free: Place, none: seq<string> -> Value)
    requires s.LetTuple? && Fits(b, n, own, free)
    ensures Fits(b, NamesAfter(b, s, n), b.Next(s, own, FREE, none), free)
  {
    Untouched(own, s.inner, none);
    hide Eval, SymOf, Changed, Keys;
    var after, next := NamesAfter(b, s, n), b.Next(s, own, FREE, none);
    assert next.Keys == after.locals;
    forall x | x in after.env && x in next && x !in after.dirty ensures next[x] == Eval(after.env[x], free, FREE) {
      assert x !in Keys(s.inner.relet) && x !in Keys(s.names) && x !in Keys(s.inner.sets);
      assert x in n.locals && x != [s.joined];
    }
  }

  lemma ActFits(b: Build, s: Stmt, n: Names, own: Locals, free: Place, none: seq<string> -> Value)
    requires s.Act? && Fits(b, n, own, free)
    ensures Fits(b, NamesAfter(b, s, n), b.Next(s, own, FREE, none), free)
  {
    Untouched(own, s.inner, none);
    hide Eval, Changed, Keys;
  }

  lemma StatementFits(b: Build, s: Stmt, n: Names, own: Locals, free: Place, none: seq<string> -> Value)
    requires Fits(b, n, own, free) && free.consts == b.consts && ScopedStmt(b, s, n.locals)
    ensures Fits(b, NamesAfter(b, s, n), b.Next(s, own, FREE, none), free)
  {
    hide Fits, ScopedStmt, Build.Next, NamesAfter;
    match s
    case Let(_, _, _, _) => LetFits(b, s, n, own, free, none);
    case LetTuple(_, _, _, _, _) => TupleFits(b, s, n, own, free, none);
    case Act(_, _) => ActFits(b, s, n, own, free, none);
  }

  lemma FreshEffectsRight(b: Build, fs: seq<Effect>, n: Names, own: Locals, free: Place)
    requires Fits(b, n, own, free) && free.consts == b.consts && FreshEffects(b, fs, n)
    requires forall f :: f in fs && f.path.Some? ==> Scoped(f.path.value, n.locals, b.consts.Keys)
    ensures b.EffectsRight(fs, n.env, own, free)
  {
    hide Fits, Eval, ValueOf, SymOf, Scoped, Names.Uses;
    forall f | f in fs && f.path.Some? && b.PathSym(f.path.value, n.env).Some?
      ensures Eval(b.PathSym(f.path.value, n.env).value, free, FREE) == ValueOf(f.path.value, own, b.consts, FREE)
    {
      FreshReading(b, f.path.value, n, own, free);
    }
  }

  lemma {:induction false} BodyFits(b: Build, body: seq<Stmt>, n: Names, own: Locals, free: Place)
    requires Fits(b, n, own, free) && free.consts == b.consts && AllScoped(b, body, n)
    ensures Fits(b, NamesDown(b, body, n), b.Own(body, own), free)
    ensures NamesDown(b, body, n).env == b.EnvAfter(body, n.env)
  {
    hide Fits, ScopedStmt, Build.Next, DirtyAfter, LocalNames, Build.After;
    if |body| > 0 {
      var before, s := body[..|body| - 1], body[|body| - 1];
      BodyFits(b, before, n, own, free);
      StatementFits(b, s, NamesDown(b, before, n), b.Own(before, own), free, AnyAt(UNSEEN, |body|));
    }
  }

  lemma {:induction false} FreshBody(b: Build, body: seq<Stmt>, n: Names, own: Locals, free: Place)
    requires Fits(b, n, own, free) && free.consts == b.consts && AllScoped(b, body, n) && NoStale(b, body, n)
    ensures b.BodyRight(body, n.env, own, free)
  {
    hide Fits, FreshEffects, Build.EffectsRight, Build.Own, NamesDown, Build.EnvAfter;
    if |body| > 0 {
      var before, s := body[..|body| - 1], body[|body| - 1];
      FreshBody(b, before, n, own, free);
      BodyFits(b, before, n, own, free);
      FreshEffectsRight(b, s.effects, NamesDown(b, before, n), b.Own(before, own), free);
    }
  }

  lemma StartFits(b: Build, args: Env, free: Place)
    ensures Fits(b, Start(args), ArgLocals(args, free, FREE), free)
  {
    hide Eval;
  }

  /** Where no path uses a stale name, every recorded path is the stage's own. */
  lemma FreshIsRight(b: Build, body: seq<Stmt>, args: Env)
    requires AllScoped(b, body, Start(args)) && NoStale(b, body, Start(args))
    ensures b.AllRight(body, args)
  {
    hide Fits, AllScoped, NoStale, Build.BodyRight, ArgLocals, EnvNames;
    var free := FreePlace(EnvNames(args), b.consts);
    StartFits(b, args, free);
    FreshBody(b, body, Start(args), ArgLocals(args, free, FREE), free);
  }

  // ----- and only there -----

  predicate Mentions(e: Expr, x: seq<string>) {
    match e
    case Ident(y) => y == x
    case FieldOf(obj, _) => Mentions(obj, x)
    case Minus(o) => Mentions(o, x)
    case Binary(_, l, r) => Mentions(l, x) || Mentions(r, x)
    case Call(_, args) => exists i :: 0 <= i < |args| && Mentions(args[i], x)
    case _ => false
  }

  /** Something that a schedule cannot hold is in it: a block, for one. */
  predicate Opens(e: Expr) {
    match e
    case FieldOf(obj, _) => Opens(obj)
    case Minus(o) => Opens(o)
    case Binary(_, l, r) => Opens(l) || Opens(r)
    case Call(_, args) => exists i :: 0 <= i < |args| && Opens(args[i])
    case Other(_) => true
    case _ => false
  }

  lemma {:induction false} OpensNone(b: Build, e: Expr, env: Env)
    requires Opens(e)
    ensures b.PathSym(e, env).None?
    decreases e
  {
    match e
    case FieldOf(obj, _) => OpensNone(b, obj, env);
    case Minus(o) => OpensNone(b, o, env);
    case Binary(_, l, r) => if Opens(l) { OpensNone(b, l, env); } else { OpensNone(b, r, env); }
    case Call(_, args) =>
      var i :| 0 <= i < |args| && Opens(args[i]);
      OpensNone(b, args[i], env);
      OneNone(b, args, env, i);
    case _ =>
  }

  lemma {:induction false} OneNone(b: Build, es: seq<Expr>, env: Env, i: nat)
    requires i < |es| && b.PathSym(es[i], env).None?
    ensures SymsOf(es, env, b.consts.Keys, true, b.stages).None?
  {
    hide SymOf;
    if i > 0 { OneNone(b, es[1..], env, i - 1); }
  }

  /** No let uses the local that it binds anew, a let sets its own name inside only in a
      block, and a tuple's joined name is nothing else's. */
  predicate PlainStmt(b: Build, s: Stmt, locals: set<seq<string>>) {
    match s
    case Let(x, e, inner, _) => ([x] in locals ==> !Mentions(e, [x])) && ([x] in Keys(inner.sets) ==> Opens(e))
    case LetTuple(_, joined, _, _, _) => [joined] !in LocalNames(s, locals) && [joined] !in b.consts
    case Act(_, _) => true
  }

  predicate AllPlain(b: Build, body: seq<Stmt>, n: Names) {
    |body| == 0 ||
    (&& AllPlain(b, body[..|body| - 1], n)
     && PlainStmt(b, body[|body| - 1], NamesDown(b, body[..|body| - 1], n).locals))
  }

  ghost predicate DirtyDiffers(n: Names, own: Locals, free: Place) {
    forall y :: y in n.dirty ==> y in own && y in n.env && own[y].Made? && own[y] != Eval(n.env[y], free, FREE)
  }

  predicate Unrecorded(n: Names, own: Locals, but: set<seq<string>>) {
    forall y :: y in own && y !in n.env && y !in but ==> own[y].Made?
  }

  predicate NoConstants(b: Build, n: Names, own: Locals) {
    forall y :: y in n.env && y !in own ==> y !in b.consts
  }

  /** What is dirty differs, and what is not recorded is no literal; of the names but these. */
  ghost predicate Marks(b: Build, n: Names, own: Locals, free: Place, but: set<seq<string>>) {
    Fits(b, n, own, free) && DirtyDiffers(n, own, free) && Unrecorded(n, own, but) && NoConstants(b, n, own)
  }

  /** None of these is used, unless it is no local's. */
  predicate Skips(e: Expr, but: set<seq<string>>, own: Locals) {
    forall x :: x in but && x in own ==> !Mentions(e, x)
  }

  lemma {:induction false} UnknownReading(b: Build, e: Expr, n: Names, own: Locals, free: Place, but: set<seq<string>>)
    requires Marks(b, n, own, free, but) && Skips(e, but, own) && Scoped(e, n.locals, b.consts.Keys)
    requires b.PathSym(e, n.env).None?
    ensures ValueOf(e, own, b.consts, FREE).Made?
    decreases e, 0
  {
    hide Marks;
    match e
    case Ident(y) => UnknownName(b, y, n, own, free, but);
    case Minus(o) => UnknownReading(b, o, n, own, free, but);
    case Binary(_, l, r) =>
      if b.PathSym(l, n.env).None? {
        UnknownReading(b, l, n, own, free, but);
      } else {
        UnknownReading(b, r, n, own, free, but);
      }
    case _ =>
  }

  lemma UnknownName(b: Build, y: seq<string>, n: Names, own: Locals, free: Place, but: set<seq<string>>)
    requires Marks(b, n, own, free, but) && y in n.locals && y !in n.env && Skips(Ident(y), but, own)
    ensures y in own && own[y].Made?
  {}

  lemma {:induction false} StaleReading(b: Build, e: Expr, n: Names, own: Locals, free: Place, but: set<seq<string>>)
    requires Marks(b, n, own, free, but) && Skips(e, but, own) && Scoped(e, n.locals, b.consts.Keys)
    requires free.consts == b.consts && Literals(b.consts)
    requires b.PathSym(e, n.env).Some? && n.Uses(e, b.consts.Keys)
    ensures var f := ValueOf(e, own, b.consts, FREE); f.Made? && f != Eval(b.PathSym(e, n.env).value, free, FREE)
    decreases e, 0
  {
    hide Marks, Names.Stale;
    match e
    case Ident(y) => StaleName(b, y, n, own, free, but);
    case FieldOf(obj, _) => StaleReading(b, obj, n, own, free, but);
    case Minus(o) => StaleReading(b, o, n, own, free, but);
    case Binary(_, l, r) =>
      if n.Uses(l, b.consts.Keys) {
        StaleReading(b, l, n, own, free, but);
      } else {
        StaleReading(b, r, n, own, free, but);
      }
    case Call(_, args) =>
      var i :| 0 <= i < |args| && n.Uses(args[i], b.consts.Keys);
      SymsAt(b, args, n.env, free, own, i);
      StaleReading(b, args[i], n, own, free, but);
    case _ =>
  }

  lemma StaleName(b: Build, y: seq<string>, n: Names, own: Locals, free: Place, but: set<seq<string>>)
    requires Marks(b, n, own, free, but) && Skips(Ident(y), but, own) && (y in n.locals || y in b.consts)
    requires free.consts == b.consts && Literals(b.consts)
    requires b.PathSym(Ident(y), n.env).Some? && n.Stale(y, b.consts.Keys)
    ensures var f := ValueOf(Ident(y), own, b.consts, FREE);
      f.Made? && f != Eval(b.PathSym(Ident(y), n.env).value, free, FREE)
  {
    if y !in n.env { ConstMeans(y, free, FREE); }
  }

  lemma {:induction false} SymsAt(b: Build, es: seq<Expr>, env: Env, free: Place, own: Locals, i: nat)
    requires i < |es| && SymsOf(es, env, b.consts.Keys, true, b.stages).Some?
    ensures b.PathSym(es[i], env).Some?
    ensures var ss := Evals(SymsOf(es, env, b.consts.Keys, true, b.stages).value, free, FREE);
      var vs := ValuesOf(es, own, b.consts, FREE);
      && |ss| == |vs| == |es| && ss[i] == Eval(b.PathSym(es[i], env).value, free, FREE)
      && vs[i] == ValueOf(es[i], own, b.consts, FREE)
  {
    hide SymOf, Eval, ValueOf;
    var ss := SymsOf(es, env, b.consts.Keys, true, b.stages).value;
    assert ss[1..] == SymsOf(es[1..], env, b.consts.Keys, true, b.stages).value;
    if i > 0 {
      SymsAt(b, es[1..], env, free, own, i - 1);
      assert es[i] == es[1..][i - 1];
    } else if |es| > 1 {
      SymsAt(b, es[1..], env, free, own, 0);
    }
  }

  /** What is unknown differs from everything that is recorded. */
  lemma UnknownDiffers(s: Sym, names: set<string>, consts: Locals)
    requires NamesIn(s) <= names && Literals(consts)
    ensures Eval(s, FreePlace(names, consts), FREE) != UNKNOWN
  {
    FreeIsSound();
    SymWorth(s, names, FreePlace(names, consts), FREE);
  }

  lemma MarksWithout(b: Build, x: seq<string>, n: Names, own: Locals, free: Place)
    requires Marks(b, n, own, free, {})
    ensures Marks(b, n.Without(x), own, free, {x})
  {
    hide Eval;
    FitsWithout(b, x, n, own, free);
  }

  /** What a let reads, stale or not, recorded or not. */
  lemma LetMarked(b: Build, x: seq<string>, e: Expr, n: Names, own: Locals, free: Place)
    requires Marks(b, n, own, free, {}) && Skips(e, {x}, own) && Scoped(e, n.locals, b.consts.Keys)
    requires free.consts == b.consts && Literals(b.consts)
    ensures var sym, f := b.PathSym(e, n.env - {x}), ValueOf(e, own, b.consts, FREE);
      && (sym.None? ==> f.Made?)
      && (sym.Some? && n.Without(x).Uses(e, b.consts.Keys) ==> f.Made? && f != Eval(sym.value, free, FREE))
  {
    MarksWithout(b, x, n, own, free);
    hide Marks, Eval, ValueOf, Scoped, SymOf, Names.Uses, Skips;
    if b.PathSym(e, n.env - {x}).None? {
      UnknownReading(b, e, n.Without(x), own, free, {x});
    } else if n.Without(x).Uses(e, b.consts.Keys) {
      StaleReading(b, e, n.Without(x), own, free, {x});
    }
  }

  /** What is set inside, and is recorded, differs. */
  lemma Dirtied(b: Build, s: Stmt, n: Names, own: Locals, none: seq<string> -> Value, names: set<string>)
    requires (forall x :: none(x) == UNKNOWN) && Literals(b.consts) && NamesOnly(b.After(s, n.env), names)
    ensures var next, env := b.Next(s, own, FREE, none), b.After(s, n.env);
      forall y :: y in next && next[y] == UNKNOWN && y in env ==>
        next[y] != Eval(env[y], FreePlace(names, b.consts), FREE)
  {
    hide Build.Next, Build.After, Eval, NamesIn, FreePlace, Literals;
    var next, env := b.Next(s, own, FREE, none), b.After(s, n.env);
    forall y | y in next && next[y] == UNKNOWN && y in env
      ensures next[y] != Eval(env[y], FreePlace(names, b.consts), FREE)
    {
      UnknownDiffers(env[y], names, b.consts);
    }
  }

  /** What the blocks inside set is unknown afterwards. */
  lemma ChangedUnknown(own: Locals, inner: Inner, none: seq<string> -> Value)
    requires forall x :: none(x) == UNKNOWN
    ensures forall x :: x in Keys(inner.relet) || (x in own && x in Keys(inner.sets)) ==>
        x in Changed(own, inner, none) && Changed(own, inner, none)[x] == UNKNOWN
  {}

  lemma DirtyIsLocal(b: Build, n: Names, own: Locals, free: Place, y: seq<string>)
    requires Fits(b, n, own, free) && y in n.dirty
    ensures y in own && y in n.env
  {}

  lemma AllDirtyLocal(b: Build, n: Names, own: Locals, free: Place)
    requires Fits(b, n, own, free)
    ensures forall y :: y in n.dirty ==> y in own && y in n.env
  {
    hide Eval;
  }

  /** A dirty name was so before, or is set inside, or is the statement's own. */
  lemma StillDirty(b: Build, s: Stmt, n: Names, own: Locals, names: set<string>, none: seq<string> -> Value,
          bound: set<seq<string>>)
    requires (forall x :: none(x) == UNKNOWN) && Literals(b.consts) && NamesOnly(n.env, names)
    requires DirtyDiffers(n, own, FreePlace(names, b.consts))
    requires var after, next := NamesAfter(b, s, n), b.Next(s, own, FREE, none);
      && Fits(b, after, next, FreePlace(names, b.consts))
      && (forall y :: y in after.dirty ==> y in n.dirty || y in Keys(s.inner.relet) || y in bound)
      && (forall y :: y in after.env && y !in bound ==>
            y in n.env && after.env[y] == n.env[y] && y !in Keys(s.inner.sets))
      && (forall y :: y in next && y !in bound ==>
            y in Changed(own, s.inner, none) && next[y] == Changed(own, s.inner, none)[y])
      && (forall y :: y in after.dirty && y in bound ==>
            && y in next && y in after.env && next[y].Made?
            && next[y] != Eval(after.env[y], FreePlace(names, b.consts), FREE))
    ensures DirtyDiffers(NamesAfter(b, s, n), b.Next(s, own, FREE, none), FreePlace(names, b.consts))
  {
    var free, after, next := FreePlace(names, b.consts), NamesAfter(b, s, n), b.Next(s, own, FREE, none);
    Dirtied(b, s, n, own, none, names) by { AfterNames(b, s, n.env, names); }
    Untouched(own, s.inner, none);
    ChangedUnknown(own, s.inner, none);
    forall y | y in after.dirty
      ensures y in next && y in after.env && next[y].Made? && next[y] != Eval(after.env[y], free, FREE)
    {
      DirtyIsLocal(b, after, next, free, y);
    }
  }

  lemma LetDirty(b: Build, s: Stmt, n: Names, own: Locals, names: set<string>, none: seq<string> -> Value)
    requires s.Let? && (forall x :: none(x) == UNKNOWN) && Literals(b.consts) && NamesOnly(n.env, names)
    requires Marks(b, n, own, FreePlace(names, b.consts), {})
    requires ScopedStmt(b, s, n.locals) && PlainStmt(b, s, n.locals)
    ensures DirtyDiffers(NamesAfter(b, s, n), b.Next(s, own, FREE, none), FreePlace(names, b.consts))
  {
    var free := FreePlace(names, b.consts);
    LetFits(b, s, n, own, free, none);
    LetMarked(b, [s.name], s.value, n, own, free);
    hide Fits, Eval, ValueOf, Scoped, SymOf, Names.Uses, Changed, Keys, FreePlace, NamesOnly, Literals, Mentions, Opens;
    hide DirtyDiffers, Unrecorded, NoConstants;
    StillDirty(b, s, n, own, names, none, {[s.name]});
  }

  lemma LetUnrecorded(b: Build, s: Stmt, n: Names, own: Locals, names: set<string>, none: seq<string> -> Value)
    requires s.Let? && (forall x :: none(x) == UNKNOWN) && Literals(b.consts)
    requires Marks(b, n, own, FreePlace(names, b.consts), {})
    requires ScopedStmt(b, s, n.locals) && PlainStmt(b, s, n.locals)
    ensures Unrecorded(NamesAfter(b, s, n), b.Next(s, own, FREE, none), {})
    ensures NoConstants(b, NamesAfter(b, s, n), b.Next(s, own, FREE, none))
  {
    var free, x := FreePlace(names, b.consts), [s.name];
    Untouched(own, s.inner, none);
    ChangedUnknown(own, s.inner, none);
    LetMarked(b, x, s.value, n, own, free);
    if Opens(s.value) { OpensNone(b, s.value, n.env - {x}); }
    hide Fits, Eval, ValueOf, Scoped, SymOf, Names.Uses, Changed, Keys, FreePlace, Literals, Mentions, Opens;
    hide DirtyDiffers, DirtyAfter;
    var after, next := NamesAfter(b, s, n), b.Next(s, own, FREE, none);
    forall y | y in next && y !in after.env ensures next[y].Made? {
      if y != x && y !in Keys(s.inner.relet) && y !in Keys(s.inner.sets) { assert y in own && y !in n.env; }
    }
  }

  lemma TupleBound(b: Build, s: Stmt, n: Names, own: Locals, names: set<string>, none: seq<string> -> Value)
    requires s.LetTuple? && (forall x :: none(x) == UNKNOWN) && Literals(b.consts) && NamesOnly(n.env, names)
    requires Fits(b, n, own, FreePlace(names, b.consts)) && PlainStmt(b, s, n.locals)
    ensures var after, next := NamesAfter(b, s, n), b.Next(s, own, FREE, none);
      forall y :: y in after.dirty && y in Keys(s.names) + {[s.joined]} ==>
        y in next && y in after.env && next[y].Made? && next[y] != Eval(after.env[y], FreePlace(names, b.consts), FREE)
  {
    var free := FreePlace(names, b.consts);
    TupleFits(b, s, n, own, free, none);
    AllDirtyLocal(b, NamesAfter(b, s, n), b.Next(s, own, FREE, none), free);
    AfterNames(b, s, n.env, names);
    Dirtied(b, s, n, own, none, names);
    TupleUnknown(b, s, own, none);
    TupleEnv(b, s, n, own, free, none);
    hide Fits, Eval, SymOf, Changed, Keys, FreePlace, NamesOnly, Literals, Build.Next;
    hide Build.After, DirtyAfter, LocalNames, PlainStmt;
  }

  lemma TupleDirty(b: Build, s: Stmt, n: Names, own: Locals, names: set<string>, none: seq<string> -> Value)
    requires s.LetTuple? && (forall x :: none(x) == UNKNOWN) && Literals(b.consts) && NamesOnly(n.env, names)
    requires Marks(b, n, own, FreePlace(names, b.consts), {}) && PlainStmt(b, s, n.locals)
    ensures DirtyDiffers(NamesAfter(b, s, n), b.Next(s, own, FREE, none), FreePlace(names, b.consts))
  {
    var free := FreePlace(names, b.consts);
    assert Fits(b, n, own, free) && DirtyDiffers(n, own, free);
    hide Fits, Eval, SymOf, Changed, Keys, FreePlace, NamesOnly, Literals, DirtyDiffers, Unrecorded, NoConstants;
    hide Build.Next, Build.After, DirtyAfter, LocalNames, PlainStmt;
    TupleFits(b, s, n, own, free, none);
    TupleBound(b, s, n, own, names, none);
    TupleUnknown(b, s, own, none);
    TupleEnv(b, s, n, own, free, none);
    StillDirty(b, s, n, own, names, none, Keys(s.names) + {[s.joined]});
  }

  lemma TupleUnknown(b: Build, s: Stmt, own: Locals, none: seq<string> -> Value)
    requires s.LetTuple? && forall x :: none(x) == UNKNOWN
    ensures var next := b.Next(s, own, FREE, none);
      && next.Keys == own.Keys + Keys(s.inner.relet) + Keys(s.names)
      && (forall y :: y in Keys(s.names) ==> next[y] == UNKNOWN)
      && (forall y :: y in next && y !in Keys(s.names) ==>
            y in Changed(own, s.inner, none) && next[y] == Changed(own, s.inner, none)[y])
  {
    Untouched(own, s.inner, none);
    hide Changed;
  }

  /** The joined name is no local's, so it is not dirty; the other names are as they were. */
  lemma TupleEnv(b: Build, s: Stmt, n: Names, own: Locals, free: Place, none: seq<string> -> Value)
    requires s.LetTuple? && Fits(b, n, own, free) && PlainStmt(b, s, n.locals)
    ensures var after := NamesAfter(b, s, n);
      && [s.joined] !in after.dirty && [s.joined] !in after.locals
      && (forall y :: y in after.dirty ==> y in n.dirty || y in Keys(s.inner.relet) || y in Keys(s.names))
      && (forall y :: y in after.env && y != [s.joined] ==>
            y in n.env && after.env[y] == n.env[y] && y !in Keys(s.inner.sets))
      && (forall y :: y in n.env && y != [s.joined] && y !in Keys(s.inner.sets) ==> y in after.env)
  {
    hide SymOf, Keys, Eval;
  }

  lemma TupleUnrecorded(b: Build, s: Stmt, n: Names, own: Locals, names: set<string>, none: seq<string> -> Value)
    requires s.LetTuple? && (forall x :: none(x) == UNKNOWN)
    requires Marks(b, n, own, FreePlace(names, b.consts), {}) && PlainStmt(b, s, n.locals)
    ensures Unrecorded(NamesAfter(b, s, n), b.Next(s, own, FREE, none), {})
    ensures NoConstants(b, NamesAfter(b, s, n), b.Next(s, own, FREE, none))
  {
    Untouched(own, s.inner, none);
    ChangedUnknown(own, s.inner, none);
    TupleUnknown(b, s, own, none);
    TupleEnv(b, s, n, own, FreePlace(names, b.consts), none);
    assert own.Keys == n.locals;
    assert PlainStmt(b, s, n.locals) ==> [s.joined] !in b.consts && [s.joined] !in LocalNames(s, n.locals);
    assert own.Keys <= LocalNames(s, n.locals);
    hide Fits, Eval, Changed, Keys, FreePlace, DirtyDiffers, DirtyAfter, Build.Next, Build.After, LocalNames, PlainStmt;
    var after, next := NamesAfter(b, s, n), b.Next(s, own, FREE, none);
    forall y | y in next && y !in after.env ensures next[y].Made? {
      if y !in Keys(s.inner.relet) && y !in Keys(s.inner.sets) && y !in Keys(s.names) {
        assert y in own && y !in n.env;
      }
    }
  }

  lemma ActDirty(b: Build, s: Stmt, n: Names, own: Locals, names: set<string>, none: seq<string> -> Value)
    requires s.Act? && (forall x :: none(x) == UNKNOWN) && Literals(b.consts) && NamesOnly(n.env, names)
    requires Marks(b, n, own, FreePlace(names, b.consts), {})
    ensures DirtyDiffers(NamesAfter(b, s, n), b.Next(s, own, FREE, none), FreePlace(names, b.consts))
  {
    ActFits(b, s, n, own, FreePlace(names, b.consts), none);
    hide Fits, Eval, Changed, Keys, FreePlace, NamesOnly, Literals, DirtyDiffers, Unrecorded, NoConstants;
    StillDirty(b, s, n, own, names, none, {});
  }

  lemma ActUnrecorded(b: Build, s: Stmt, n: Names, own: Locals, names: set<string>, none: seq<string> -> Value)
    requires s.Act? && (forall x :: none(x) == UNKNOWN) && Marks(b, n, own, FreePlace(names, b.consts), {})
    ensures Unrecorded(NamesAfter(b, s, n), b.Next(s, own, FREE, none), {})
    ensures NoConstants(b, NamesAfter(b, s, n), b.Next(s, own, FREE, none))
  {
    Untouched(own, s.inner, none);
    ChangedUnknown(own, s.inner, none);
    hide Fits, Eval, Changed, Keys, FreePlace, DirtyDiffers;
    var after, next := NamesAfter(b, s, n), b.Next(s, own, FREE, none);
    forall y | y in next && y !in after.env ensures next[y].Made? {
      if y !in Keys(s.inner.relet) && y !in Keys(s.inner.sets) { assert y in own && y !in n.env; }
    }
  }

  /** Where the marks stand, and the names that are recorded. */
  ghost predicate Standing(b: Build, n: Names, own: Locals, names: set<string>) {
    Marks(b, n, own, FreePlace(names, b.consts), {}) && NamesOnly(n.env, names)
  }

  lemma StatementMarks(b: Build, s: Stmt, n: Names, own: Locals, names: set<string>, none: seq<string> -> Value)
    requires (forall x :: none(x) == UNKNOWN) && Literals(b.consts) && Standing(b, n, own, names)
    requires ScopedStmt(b, s, n.locals) && PlainStmt(b, s, n.locals)
    ensures Standing(b, NamesAfter(b, s, n), b.Next(s, own, FREE, none), names)
  {
    AfterNames(b, s, n.env, names);
    StatementFits(b, s, n, own, FreePlace(names, b.consts), none);
    hide ScopedStmt, PlainStmt, Build.Next, NamesOnly, FreePlace, DirtyAfter;
    hide Build.After, Fits, DirtyDiffers, Unrecorded;
    hide NoConstants, LocalNames;
    match s
    case Let(_, _, _, _) =>
      LetDirty(b, s, n, own, names, none);
      LetUnrecorded(b, s, n, own, names, none);
    case LetTuple(_, _, _, _, _) =>
      TupleDirty(b, s, n, own, names, none);
      TupleUnrecorded(b, s, n, own, names, none);
    case Act(_, _) =>
      ActDirty(b, s, n, own, names, none);
      ActUnrecorded(b, s, n, own, names, none);
  }

  lemma {:induction false} BodyMarks(b: Build, body: seq<Stmt>, n: Names, own: Locals, names: set<string>)
    requires Literals(b.consts) && Standing(b, n, own, names) && AllScoped(b, body, n) && AllPlain(b, body, n)
    ensures Standing(b, NamesDown(b, body, n), b.Own(body, own), names)
  {
    hide Standing, ScopedStmt, PlainStmt, Build.Next, Literals, NamesAfter;
    if |body| > 0 {
      var before, s := body[..|body| - 1], body[|body| - 1];
      BodyMarks(b, before, n, own, names);
      StatementMarks(b, s, NamesDown(b, before, n), b.Own(before, own), names, AnyAt(UNSEEN, |body|));
    }
  }

  lemma StaleEffect(b: Build, fs: seq<Effect>, n: Names, own: Locals, names: set<string>)
    requires Standing(b, n, own, names) && Literals(b.consts) && !FreshEffects(b, fs, n)
    requires forall f :: f in fs && f.path.Some? ==> Scoped(f.path.value, n.locals, b.consts.Keys)
    ensures !b.EffectsRight(fs, n.env, own, FreePlace(names, b.consts))
  {
    hide Marks, Eval, ValueOf, SymOf, Scoped, Names.Uses, NamesOnly, Literals;
    var f :| f in fs && f.path.Some? && b.PathSym(f.path.value, n.env).Some? && n.Uses(f.path.value, b.consts.Keys);
    StaleReading(b, f.path.value, n, own, FreePlace(names, b.consts), {});
  }

  lemma {:induction false} StaleBody(b: Build, body: seq<Stmt>, n: Names, own: Locals, names: set<string>)
    requires Literals(b.consts) && Standing(b, n, own, names) && AllScoped(b, body, n) && AllPlain(b, body, n)
    requires !NoStale(b, body, n)
    ensures !b.BodyRight(body, n.env, own, FreePlace(names, b.consts))
  {
    hide Standing, PlainStmt, FreshEffects, Build.EffectsRight, Build.Own;
    hide NamesDown, Build.EnvAfter, Literals, FreePlace;
    var before, s := body[..|body| - 1], body[|body| - 1];
    if !NoStale(b, before, n) {
      StaleBody(b, before, n, own, names);
    } else {
      BodyMarks(b, before, n, own, names);
      SameEnv(b, before, n);
      StaleEffect(b, s.effects, NamesDown(b, before, n), b.Own(before, own), names);
    }
  }

  lemma {:induction false} SameEnv(b: Build, body: seq<Stmt>, n: Names)
    ensures NamesDown(b, body, n).env == b.EnvAfter(body, n.env)
  {
    hide Build.After, DirtyAfter, LocalNames;
    if |body| > 0 { SameEnv(b, body[..|body| - 1], n); }
  }

  lemma StartMarks(b: Build, args: Env)
    ensures Standing(b, Start(args), ArgLocals(args, FreePlace(EnvNames(args), b.consts), FREE), EnvNames(args))
  {
    hide Eval, NamesIn, FreePlace;
    StartFits(b, args, FreePlace(EnvNames(args), b.consts));
    forall x | x in args ensures NamesIn(args[x]) <= EnvNames(args) {}
  }

  /** Every recorded path is the stage's own exactly when no path uses a stale name. */
  lemma RightExactlyWhenFresh(b: Build, body: seq<Stmt>, args: Env)
    requires Literals(b.consts) && AllScoped(b, body, Start(args)) && AllPlain(b, body, Start(args))
    ensures b.AllRight(body, args) <==> NoStale(b, body, Start(args))
  {
    hide AllScoped, AllPlain, NoStale, Build.AllRight, Standing, EnvNames;
    if NoStale(b, body, Start(args)) {
      FreshIsRight(b, body, args);
    } else {
      StartMarks(b, args);
      StaleIsWrong(b, body, args);
    }
  }

  lemma StaleIsWrong(b: Build, body: seq<Stmt>, args: Env)
    requires Literals(b.consts) && AllScoped(b, body, Start(args)) && AllPlain(b, body, Start(args))
    requires !NoStale(b, body, Start(args))
    ensures !b.AllRight(body, args)
  {
    hide AllScoped, AllPlain, NoStale, Build.BodyRight, Standing, EnvNames, ArgLocals, FreePlace, Literals;
    StartMarks(b, args);
    var own := ArgLocals(args, FreePlace(EnvNames(args), b.consts), FREE);
    StaleBody(b, body, Start(args), own, EnvNames(args));
  }

  /** For all arguments, loop variables, sound meanings and values of what is set inside:
      the recorded paths are the stage's if and only if no path uses a stale name. */
  lemma PathsExactlyFresh(b: Build, body: seq<Stmt>, args: Env)
    requires Literals(b.consts) && b.Recorded(body, args).Some?
    requires AllScoped(b, body, Start(args))
    ensures NoStale(b, body, Start(args)) ==>
      forall at: Place, m: Meaning, any: (nat, seq<string>) -> Value ::
        m.Sound() && at.consts == b.consts ==> b.SameTouches(body, args, at, m, any)
    ensures AllPlain(b, body, Start(args)) ==>
      (NoStale(b, body, Start(args)) <==>
        forall at: Place, m: Meaning, any: (nat, seq<string>) -> Value ::
          m.Sound() && at.consts == b.consts ==> b.SameTouches(body, args, at, m, any))
  {
    hide AllScoped, AllPlain, NoStale, Build.AllRight, Build.SameTouches, Literals, Meaning.Sound;
    PathsExact(b, body, args);
    if NoStale(b, body, Start(args)) { FreshIsRight(b, body, args); }
    if AllPlain(b, body, Start(args)) { RightExactlyWhenFresh(b, body, args); }
  }
}
