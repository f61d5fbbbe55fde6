/** Statements: the scope the analyzer has at each expression, and the values a run has
    whenever it evaluates that expression. */
module DepthRuns {
  import opened Depth

  /** What the compiler emits for a let: a declaration that it notes, one that it does not
      (a null ciphertext), or, when an enclosing let's name is noted, an assignment. */
  datatype Form = Fresh | Silent | Again

  /** A let with a type is one whose value is cast to it. Returns, asserts and expression
      statements evaluate. A fixed if has a condition that the build decides. */
  datatype Stmt =
    | Let(name: string, value: Expr, form: Form)
    | LetTuple(names: seq<string>, value: Expr)
    | Assign(target: Expr, value: Expr)
    | Evaluate(e: Expr)
    | If(cond: Expr, then_: seq<Stmt>, else_: seq<Stmt>)
    | Fixed(cond: Expr, holds: bool, then_: seq<Stmt>, else_: seq<Stmt>)
    | For(names: seq<string>, iterable: Expr, body: seq<Stmt>)

  // ----- what is emitted -----

  /** The statement as it is emitted, the noted names being those of the lets around it. */
  function Emitted(s: Stmt, noted: set<string>): Stmt
    decreases s, 1
  {
    match s
    case Let(x, e, form) => Let(x, e, if form.Fresh? && x in noted then Again else form)
    case If(c, a, b) => If(c, EmittedAll(a, noted), EmittedAll(b, noted))
    case Fixed(c, holds, a, b) => Fixed(c, holds, EmittedAll(a, noted), EmittedAll(b, noted))
    case For(names, iterable, body) => For(names, iterable, EmittedAll(body, noted))
    case _ => s
  }

  function EmittedAll(ss: seq<Stmt>, noted: set<string>): seq<Stmt>
    decreases ss, 0
  {
    if |ss| == 0 then [] else [Emitted(ss[0], noted)] + EmittedAll(ss[1..], Noted(ss[0], noted))
  }

  /** What a block noted is forgotten with it. */
  function Noted(s: Stmt, noted: set<string>): set<string> {
    if s.Let? && s.form.Fresh? then noted + {s.name} else noted
  }

  // ----- the analyzer's scope -----

  /** The names of a tuple let: "_" names nothing. */
  function Named(names: seq<string>): set<string> {
    set x | x in names && x != "_"
  }

  function NameSet(names: seq<string>): set<string> {
    set x | x in names
  }

  function Untyped(scope: Scope, names: set<string>): Scope {
    scope + (map x | x in names :: UNKNOWN)
  }

  /** What is visible after a statement: a loop's body has a scope of its own, the
      branches of an if have not. */
  function After(s: Stmt, scope: Scope): Scope
    decreases s, 1
  {
    match s
    case Let(x, e, _) => scope[x := TypeOf(e, scope)]
    case LetTuple(names, _) => Untyped(scope, Named(names))
    case If(_, a, b) => AfterAll(b, AfterAll(a, scope))
    case Fixed(_, _, a, b) => AfterAll(b, AfterAll(a, scope))
    case _ => scope
  }

  function AfterAll(ss: seq<Stmt>, scope: Scope): Scope
    decreases ss, 0
  {
    if |ss| == 0 then scope else AfterAll(ss[1..], After(ss[0], scope))
  }

  /** The branch that is emitted, without a block of its own. */
  function Live(s: Stmt): seq<Stmt>
    requires s.Fixed?
  {
    if s.holds then s.then_ else s.else_
  }

  /** The scope the analyzer has when it comes to that branch. */
  function LiveScope(s: Stmt, scope: Scope): Scope
    requires s.Fixed?
  {
    if s.holds then scope else AfterAll(s.then_, scope)
  }

  // ----- a run's values -----

  /** One map to a block, the innermost last. */
  type Frames = seq<Vals>

  function Visible(frames: Frames): Vals {
    if |frames| == 0 then map[] else Visible(frames[..|frames| - 1]) + frames[|frames| - 1]
  }

  function Define(frames: Frames, more: Vals): Frames {
    if |frames| == 0 then [more] else frames[..|frames| - 1] + [frames[|frames| - 1] + more]
  }

  /** The innermost variable of that name changes. */
  function Set(frames: Frames, x: string, v: Val): Frames {
    if |frames| == 0 then frames
    else
      var last := frames[|frames| - 1];
      if x in last then frames[..|frames| - 1] + [last[x := v]]
      else Set(frames[..|frames| - 1], x, v) + [last]
  }

  /** How one statement goes in one run: what is outside the model, the branch taken, and
      the rounds of a loop. */
  datatype Script = Script(outside: Outside, taken: bool, branch: seq<Script>, rounds: seq<Round>)
  datatype Round = Round(item: Val, scripts: seq<Script>)

  function Bind(frames: Frames, x: string, v: Val, form: Form): Frames {
    if form.Again? then Set(frames, x, v) else Define(frames, map[x := v])
  }

  function Values(e: Expr, frames: Frames, script: Script): Val {
    ValOf(e, Visible(frames), script.outside)
  }

  function Popped(frames: Frames): Frames {
    if |frames| == 0 then frames else frames[..|frames| - 1]
  }

  function Items(names: set<string>, item: Val): Vals {
    map x | x in names :: item
  }

  function Then(s: Stmt, frames: Frames, script: Script): Frames
    decreases s, 1, 0
  {
    match s
    case Let(x, e, form) => Bind(frames, x, Values(e, frames, script), form)
    case LetTuple(names, _) => Define(frames, Items(Named(names), Values(s.value, frames, script)))
    case Assign(target, e) => if target.Ident? then Set(frames, target.name, Values(e, frames, script)) else frames
    case Evaluate(_) => frames
    case If(_, a, b) => Popped(ThenAll(if script.taken then a else b, frames + [map[]], script.branch))
    case Fixed(_, holds, a, b) => ThenAll(if holds then a else b, frames, script.branch)
    case For(names, _, body) => ThenRounds(names, body, frames, script.rounds)
  }

  function ThenAll(ss: seq<Stmt>, frames: Frames, scripts: seq<Script>): Frames
    decreases ss, 0, 0
  {
    if |ss| == 0 || |scripts| == 0 then frames
    else ThenAll(ss[1..], Then(ss[0], frames, scripts[0]), scripts[1..])
  }

  function ThenRounds(names: seq<string>, body: seq<Stmt>, frames: Frames, rounds: seq<Round>): Frames
    decreases body, 1, |rounds|
  {
    if |rounds| == 0 then frames
    else
      var round := rounds[0];
      ThenRounds(names, body, Popped(ThenAll(body, frames + [Items(NameSet(names), round.item)], round.scripts)),
          rounds[1..])
  }

  // ----- where expressions are evaluated -----

  /** An expression when a run evaluates it, with the scope it was checked in. */
  datatype Visit = Visit(e: Expr, scope: Scope, vals: Vals, outside: Outside)
  {
    ghost predicate Holds() {
      && Fits(TypeOf(e, scope), ValOf(e, vals, outside))
      && EachAtMost(DepthsIn(e, scope), ChainsIn(e, scope, vals, outside))
    }
  }

  function Seen(e: Expr, scope: Scope, frames: Frames, script: Script): Visit {
    Visit(e, scope, Visible(frames), script.outside)
  }

  /** Whether a script goes on to the end of its statement: a run that returns does not. */
  predicate Finishes(s: Stmt, script: Script)
    decreases s, 1
  {
    match s
    case If(_, a, b) => if script.taken then FinishesAll(a, script.branch) else FinishesAll(b, script.branch)
    case Fixed(_, holds, a, b) => if holds then FinishesAll(a, script.branch) else FinishesAll(b, script.branch)
    case For(_, _, body) => forall i :: 0 <= i < |script.rounds| ==> FinishesAll(body, script.rounds[i].scripts)
    case _ => true
  }

  predicate FinishesAll(ss: seq<Stmt>, scripts: seq<Script>)
    decreases ss, 0
  {
    |ss| == 0 || (|scripts| > 0 && Finishes(ss[0], scripts[0]) && FinishesAll(ss[1..], scripts[1..]))
  }

  /** What a run evaluates, until it returns. */
  function Visits(s: Stmt, scope: Scope, frames: Frames, script: Script): seq<Visit>
    decreases s, 1, 0
  {
    match s
    case Let(_, e, _) => [Seen(e, scope, frames, script)]
    case LetTuple(_, e) => [Seen(e, scope, frames, script)]
    case Assign(target, e) => [Seen(target, scope, frames, script), Seen(e, scope, frames, script)]
    case Evaluate(e) => [Seen(e, scope, frames, script)]
    case If(c, a, b) =>
      [Seen(c, scope, frames, script)] +
      (if script.taken then VisitsAll(a, scope, frames + [map[]], script.branch)
       else VisitsAll(b, AfterAll(a, scope), frames + [map[]], script.branch))
    case Fixed(_, holds, a, b) =>
      if holds then VisitsAll(a, scope, frames, script.branch)
      else VisitsAll(b, AfterAll(a, scope), frames, script.branch)
    case For(names, iterable, body) =>
      [Seen(iterable, scope, frames, script)] +
          VisitsRounds(names, body, Untyped(scope, NameSet(names)), frames, script.rounds)
  }

  function VisitsAll(ss: seq<Stmt>, scope: Scope, frames: Frames, scripts: seq<Script>): seq<Visit>
    decreases ss, 0, 0
  {
    if |ss| == 0 || |scripts| == 0 then []
    else
      Visits(ss[0], scope, frames, scripts[0]) +
      (if Finishes(ss[0], scripts[0]) then
         VisitsAll(ss[1..], After(ss[0], scope), Then(ss[0], frames, scripts[0]), scripts[1..])
       else [])
  }

  function VisitsRounds(names: seq<string>, body: seq<Stmt>, scope: Scope, frames: Frames,
          rounds: seq<Round>): seq<Visit>
    decreases body, 1, |rounds|
  {
    if |rounds| == 0 then []
    else
      var inner := frames + [Items(NameSet(names), rounds[0].item)];
      VisitsAll(body, scope, inner, rounds[0].scripts) +
      (if FinishesAll(body, rounds[0].scripts) then
         VisitsRounds(names, body, scope, Popped(ThenAll(body, inner, rounds[0].scripts)), rounds[1..])
       else [])
  }

  predicate AllTypedVisits(vs: seq<Visit>) {
    forall i :: 0 <= i < |vs| ==> Typed(vs[i].e, vs[i].vals, vs[i].outside)
  }

  ghost predicate AllHold(vs: seq<Visit>) {
    forall i :: 0 <= i < |vs| ==> vs[i].Holds()
  }

  lemma AppendHolds(a: seq<Visit>, b: seq<Visit>)
    ensures AllHold(a) && AllHold(b) <==> AllHold(a + b)
  {
    hide Visit.Holds;
    if AllHold(a + b) {
      forall i | 0 <= i < |a| ensures a[i].Holds() { assert a[i] == (a + b)[i]; }
      forall i | 0 <= i < |b| ensures b[i].Holds() { assert b[i] == (a + b)[|a| + i]; }
    }
  }

  lemma AppendTyped(a: seq<Visit>, b: seq<Visit>)
    ensures AllTypedVisits(a) && AllTypedVisits(b) <==> AllTypedVisits(a + b)
  {
    hide Typed;
    if AllTypedVisits(a + b) {
      forall i | 0 <= i < |a| ensures Typed(a[i].e, a[i].vals, a[i].outside) { assert a[i] == (a + b)[i]; }
      forall i | 0 <= i < |b| ensures Typed(b[i].e, b[i].vals, b[i].outside) { assert b[i] == (a + b)[|a| + i]; }
    }
  }

  lemma OneVisit(v: Visit)
    ensures AllHold([v]) <==> v.Holds()
    ensures AllTypedVisits([v]) <==> Typed(v.e, v.vals, v.outside)
  {
    hide Visit.Holds, Typed;
    assert [v][0] == v;
  }

  // ----- frames -----

  lemma UnionAssociates(a: Vals, b: Vals, c: Vals)
    ensures (a + b) + c == a + (b + c)
  {}

  lemma VisibleDefine(frames: Frames, more: Vals)
    requires |frames| > 0
    ensures Visible(Define(frames, more)) == Visible(frames) + more
  {
    var init, last := frames[..|frames| - 1], frames[|frames| - 1];
    var now := Define(frames, more);
    assert now[..|now| - 1] == init && now[|now| - 1] == last + more;
    UnionAssociates(Visible(init), last, more);
  }

  lemma VisiblePush(frames: Frames, more: Vals)
    ensures Visible(frames + [more]) == Visible(frames) + more
  {
    assert (frames + [more])[..|frames|] == frames;
  }
}
