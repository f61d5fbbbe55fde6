/** The other direction: where the analyzer's depths do not hold of the least values, a run
    has those values and a depth is over its chain. */
module DepthExact {
  import opened Depth
  import opened DepthRuns
  import opened DepthLows

  // ----- calls that return no more than their types say -----

  /** Outside the model everything is worth the least its type allows, and no cast claims
      more than its operand is worth. */
  predicate Sharp(e: Expr, low: Vals, outside: Outside)
    decreases e, 0
  {
    match e
    case Binary(_, l, r) => Sharp(l, low, outside) && Sharp(r, low, outside)
    case Not(o) => Sharp(o, low, outside)
    case Negate(o) => Sharp(o, low, outside)
    case Cast(o, target) => Sharp(o, low, outside) && Fits(target, LowOf(o, low))
    case Chebyshev(id, args, _, degree, returned) =>
      AllSharp(args, low, outside) && (!(degree.Some? && degree.value > 0) ==> outside(id) == Least(returned))
    case Call(id, args, returned) => AllSharp(args, low, outside) && outside(id) == Least(returned)
    case Opaque(id, parts) => AllSharp(parts, low, outside) && outside(id) == Plain
    case _ => true
  }

  predicate AllSharp(es: seq<Expr>, low: Vals, outside: Outside)
    decreases es, 0
  {
    |es| == 0 || (Sharp(es[0], low, outside) && AllSharp(es[1..], low, outside))
  }

  ghost predicate Equal(e: Expr, scope: Scope, low: Vals, outside: Outside) {
    && ValOf(e, low, outside) == LowOf(e, low) && Typed(e, low, outside)
    && ChainsIn(e, scope, low, outside) == LowChainsIn(e, scope, low)
  }

  lemma {:induction false} SharpIsLow(e: Expr, scope: Scope, low: Vals, outside: Outside)
    requires Sharp(e, low, outside)
    ensures Equal(e, scope, low, outside)
    decreases e, 0
  {
    hide Fits, BinaryVal, Val.Chain, InputVal, Least, Higher;
    match e
    case Binary(_, l, r) =>
      SharpIsLow(l, scope, low, outside);
      SharpIsLow(r, scope, low, outside);
    case Not(o) => SharpIsLow(o, scope, low, outside);
    case Negate(o) => SharpIsLow(o, scope, low, outside);
    case Cast(o, target) =>
      SharpIsLow(o, scope, low, outside);
      HigherFits(target, LowOf(o, low));
    case Chebyshev(_, args, _, degree, returned) =>
      AllSharpIsLow(args, scope, low, outside);
      LeastFits(returned);
    case Call(_, args, returned) =>
      AllSharpIsLow(args, scope, low, outside);
      LeastFits(returned);
    case Opaque(_, parts) => AllSharpIsLow(parts, scope, low, outside);
    case _ =>
  }

  lemma HigherFits(target: Ty, v: Val)
    requires Fits(target, v)
    ensures Higher(Least(target), v) == v
  {}

  lemma {:induction false} AllSharpIsLow(es: seq<Expr>, scope: Scope, low: Vals, outside: Outside)
    requires AllSharp(es, low, outside)
    ensures ValsOf(es, low, outside) == LowsOf(es, low) && AllTyped(es, low, outside)
    ensures ChainsInAll(es, scope, low, outside) == LowChainsInAll(es, scope, low)
    decreases es, 0
  {
    hide ValOf, LowOf, Typed, ChainsIn, LowChainsIn;
    if |es| > 0 {
      SharpIsLow(es[0], scope, low, outside);
      AllSharpIsLow(es[1..], scope, low, outside);
    }
  }

  ghost predicate CanBeSharp(e: Expr, low: Vals) {
    exists outside: Outside :: Sharp(e, low, outside)
  }

  // ----- programs whose least values some run has -----

  /** Of two ways on, one is under the other: the lower one is a way a run can go. */
  predicate OneUnder(a: Frames, b: Frames) {
    Beneath(a, b) || Beneath(b, a)
  }

  ghost predicate Definite(s: Stmt, low: Frames)
    decreases s, 1, 0
  {
    match s
    case Let(_, e, _) => CanBeSharp(e, Visible(low))
    case LetTuple(_, e) => CanBeSharp(e, Visible(low))
    case Assign(target, e) => exists o: Outside :: Sharp(target, Visible(low), o) && Sharp(e, Visible(low), o)
    case Evaluate(e) => CanBeSharp(e, Visible(low))
    case If(c, a, b) =>
      && CanBeSharp(c, Visible(low)) && DefiniteAll(a, low + [map[]]) && DefiniteAll(b, low + [map[]])
      && OneUnder(Popped(LowAfterAll(a, low + [map[]])), Popped(LowAfterAll(b, low + [map[]])))
    case Fixed(_, holds, a, b) => DefiniteAll(if holds then a else b, low)
    case For(names, iterable, body) => CanBeSharp(iterable, Visible(low)) && DefiniteRounds(names, body, low)
  }

  ghost predicate DefiniteAll(ss: seq<Stmt>, low: Frames)
    decreases ss, 0, 0
  {
    |ss| == 0 || (Definite(ss[0], low) && DefiniteAll(ss[1..], LowAfter(ss[0], low)))
  }

  ghost predicate DefiniteRounds(names: seq<string>, body: seq<Stmt>, low: Frames)
    decreases body, 1, Weight(low)
  {
    var once := Popped(LowAfterAll(body, RoundStart(names, low)));
    && DefiniteAll(body, RoundStart(names, low)) && OneUnder(low, once)
    && var next := Meet(low, once);
       if next == low then true
       else
         MeetBeneath(low, once);
         WeightFalls(next, low);
         DefiniteRounds(names, body, next)
  }

  lemma MeetIsOne(a: Frames, b: Frames)
    requires OneUnder(a, b)
    ensures Meet(a, b) == (if Beneath(a, b) then a else b)
  {
    var least := if Beneath(a, b) then a else b;
    forall i | 0 <= i < |a| ensures Meet(a, b)[i] == least[i] {
      assert FrameBeneath(least[i], a[i]) && FrameBeneath(least[i], b[i]);
      forall x | x in a[i] ensures MeetFrame(a[i], b[i])[x] == least[i][x] {}
    }
  }

  // ----- the run that has the least values -----

  ghost predicate Reaches(s: Stmt, scope: Scope, low: Frames, script: Script) {
    && Finishes(s, script) && Then(s, low, script) == LowAfter(s, low)
    && AllTypedVisits(Visits(s, scope, low, script))
  }

  ghost predicate ReachesAll(ss: seq<Stmt>, scope: Scope, low: Frames, scripts: seq<Script>) {
    && FinishesAll(ss, scripts) && ThenAll(ss, low, scripts) == LowAfterAll(ss, low)
    && AllTypedVisits(VisitsAll(ss, scope, low, scripts))
  }

  ghost predicate ReachesRounds(names: seq<string>, body: seq<Stmt>, scope: Scope, low: Frames, rounds: seq<Round>) {
    && (forall i :: 0 <= i < |rounds| ==> FinishesAll(body, rounds[i].scripts))
    && ThenRounds(names, body, low, rounds) == LowRounds(names, body, low)
    && AllTypedVisits(VisitsRounds(names, body, scope, low, rounds))
  }

  /** Nothing outside the model is evaluated. */
  const NOTHING: Outside := _ => Plain

  function Once(outside: Outside): Script {
    Script(outside, true, [], [])
  }

  lemma SharpVisit(e: Expr, scope: Scope, low: Frames, script: Script)
    requires Sharp(e, Visible(low), script.outside)
    ensures var v := Seen(e, scope, low, script);
        Typed(v.e, v.vals, v.outside) && (v.Holds() <==> LowHolds(e, scope, Visible(low)))
    ensures Values(e, low, script) == LowOf(e, Visible(low))
  {
    hide ValOf, LowOf, Typed, ChainsIn, LowChainsIn, EachAtMost, Fits, TypeOf;
    SharpIsLow(e, scope, Visible(low), script.outside);
  }

  lemma {:induction false} Reach(s: Stmt, scope: Scope, low: Frames) returns (script: Script)
    requires Definite(s, low) && |low| > 0
    ensures Reaches(s, scope, low, script)
    decreases s, 1, 0
  {
    hide Sharp, Typed, Beneath, AllTypedVisits, Visible, Values, LowOf, Bind, Define, Set, LowAfterAll, LowRounds;
    hide DefiniteAll;
    hide DefiniteRounds, OneUnder, ValOf;
    match s
    case If(_, _, _) => script := ReachIf(s, scope, low);
    case Fixed(_, _, _, _) =>
      var branch := ReachAll(Live(s), LiveScope(s, scope), low);
      script := Script(NOTHING, true, branch, []);
    case For(_, _, _) => script := ReachFor(s, scope, low);
    case Assign(target, e) =>
      var o: Outside :| Sharp(target, Visible(low), o) && Sharp(e, Visible(low), o);
      script := Once(o);
      SharpVisit(target, scope, low, script);
      SharpVisit(e, scope, low, script);
      var first, second := Seen(target, scope, low, script), Seen(e, scope, low, script);
      assert Visits(s, scope, low, script) == [first] + [second];
      OneVisit(first);
      OneVisit(second);
      AppendTyped([first], [second]);
    case Let(_, _, _) => script := ReachOne(s, scope, low);
    case LetTuple(_, _) => script := ReachOne(s, scope, low);
    case Evaluate(_) => script := ReachOne(s, scope, low);
  }

  /** A statement that evaluates one expression. */
  predicate IsOne(s: Stmt) {
    s.Let? || s.LetTuple? || s.Evaluate?
  }

  function Only(s: Stmt): Expr
    requires IsOne(s)
  {
    if s.Evaluate? then s.e else s.value
  }

  lemma ReachOne(s: Stmt, scope: Scope, low: Frames) returns (script: Script)
    requires IsOne(s) && Definite(s, low)
    ensures Reaches(s, scope, low, script)
  {
    hide Sharp, Typed, AllTypedVisits, Visible, Values, LowOf, Bind, Define, ValOf;
    assert CanBeSharp(Only(s), Visible(low));
    var o: Outside :| Sharp(Only(s), Visible(low), o);
    script := Once(o);
    SharpVisit(Only(s), scope, low, script);
    OneVisit(Seen(Only(s), scope, low, script));
  }

  lemma {:induction false} ReachIf(s: Stmt, scope: Scope, low: Frames) returns (script: Script)
    requires s.If? && Definite(s, low) && |low| > 0
    ensures Reaches(s, scope, low, script)
    decreases s, 0, 0
  {
    hide Sharp, Typed, Beneath, AllTypedVisits, Visible, Values, LowAfterAll, DefiniteAll, AfterAll, ThenAll, VisitsAll,
      FinishesAll, Meet, Popped, OneUnder;
    var inner := low + [map[]];
    var ends, other := Popped(LowAfterAll(s.then_, inner)), Popped(LowAfterAll(s.else_, inner));
    MeetIsOne(ends, other);
    var o: Outside :| Sharp(s.cond, Visible(low), o);
    var branch;
    if Beneath(ends, other) {
      branch := ReachAll(s.then_, scope, inner);
      script := Script(o, true, branch, []);
    } else {
      branch := ReachAll(s.else_, AfterAll(s.then_, scope), inner);
      script := Script(o, false, branch, []);
    }
    var first := [Seen(s.cond, scope, low, script)];
    SharpVisit(s.cond, scope, low, script);
    OneVisit(first[0]);
    var rest := if script.taken then VisitsAll(s.then_, scope, inner, branch)
                else VisitsAll(s.else_, AfterAll(s.then_, scope), inner, branch);
    assert Visits(s, scope, low, script) == first + rest;
    AppendTyped(first, rest);
  }

  lemma {:induction false} ReachFor(s: Stmt, scope: Scope, low: Frames) returns (script: Script)
    requires s.For? && Definite(s, low) && |low| > 0
    ensures Reaches(s, scope, low, script)
    decreases s, 0, 0
  {
    hide Sharp, Typed, Beneath, AllTypedVisits, Visible, Values, LowRounds, DefiniteRounds, ThenRounds, VisitsRounds,
      FinishesAll;
    var o: Outside :| Sharp(s.iterable, Visible(low), o);
    var inside := Untyped(scope, NameSet(s.names));
    var rounds := ReachRounds(s.names, s.body, inside, low);
    script := Script(o, true, [], rounds);
    var first := [Seen(s.iterable, scope, low, script)];
    SharpVisit(s.iterable, scope, low, script);
    OneVisit(first[0]);
    AppendTyped(first, VisitsRounds(s.names, s.body, inside, low, rounds));
  }

  lemma {:induction false} ReachRounds(names: seq<string>, body: seq<Stmt>, scope: Scope, low: Frames)
    returns (rounds: seq<Round>)
    requires DefiniteRounds(names, body, low) && |low| > 0
    ensures ReachesRounds(names, body, scope, low, rounds)
    decreases body, 1, Weight(low)
  {
    hide Typed, Beneath, AllTypedVisits, LowAfterAll, DefiniteAll, ThenAll, VisitsAll, FinishesAll, Meet, Popped;
    hide OneUnder, Items;
    var start := RoundStart(names, low);
    var once := Popped(LowAfterAll(body, start));
    var next := Meet(low, once);
    if next == low {
      rounds := [];
      NothingTyped();
    } else {
      MeetBeneath(low, once);
      WeightFalls(next, low);
      MeetIsOne(low, once);
      var scripts := ReachAll(body, scope, start);
      var later := ReachRounds(names, body, scope, next);
      rounds := [Round(Plain, scripts)] + later;
      assert rounds[0].scripts == scripts && rounds[1..] == later;
      AppendTyped(VisitsAll(body, scope, start, scripts), VisitsRounds(names, body, scope, next, later));
    }
  }

  lemma NothingTyped()
    ensures AllTypedVisits([])
  {}

  lemma {:induction false} ReachAll(ss: seq<Stmt>, scope: Scope, low: Frames) returns (scripts: seq<Script>)
    requires DefiniteAll(ss, low) && |low| > 0
    ensures ReachesAll(ss, scope, low, scripts)
    decreases ss, 0, 0
  {
    hide AllTypedVisits, Visits, After, Then, Finishes, LowAfter, Definite;
    if |ss| == 0 {
      scripts := [];
      NothingTyped();
    } else {
      var script := Reach(ss[0], scope, low);
      LowLength(ss[0], low);
      var later := ReachAll(ss[1..], After(ss[0], scope), LowAfter(ss[0], low));
      scripts := [script] + later;
      assert scripts[0] == script && scripts[1..] == later;
      AppendTyped(Visits(ss[0], scope, low, script),
          VisitsAll(ss[1..], After(ss[0], scope), LowAfter(ss[0], low), later));
    }
  }

  // ----- the run in which a depth is too much -----

  ghost predicate Breaks(vs: seq<Visit>) {
    AllTypedVisits(vs) && !AllHold(vs)
  }

  lemma BreaksLater(a: seq<Visit>, b: seq<Visit>)
    requires AllTypedVisits(a) && Breaks(b)
    ensures Breaks(a + b)
  {
    AppendTyped(a, b);
    AppendHolds(a, b);
  }

  lemma {:induction false} Fault(s: Stmt, scope: Scope, low: Frames) returns (script: Script)
    requires Definite(s, low) && |low| > 0 && !Fine(s, scope, low)
    ensures Breaks(Visits(s, scope, low, script))
    decreases s, 1, 0
  {
    hide Sharp, Typed, Breaks, AllTypedVisits, AllHold, Visit.Holds, LowHolds, Visible, Values, LowOf, DefiniteAll;
    hide DefiniteRounds;
    hide OneUnder, FineAll, AfterAll, VisitsAll, VisitsRounds, LowRounds, LowAfterAll;
    match s
    case If(_, _, _) => script := IfFault(s, scope, low);
    case Fixed(_, _, _, _) =>
      var branch := FaultAll(Live(s), LiveScope(s, scope), low);
      script := Script(NOTHING, true, branch, []);
    case For(_, _, _) => script := ForFault(s, scope, low);
    case Assign(target, e) =>
      var o: Outside :| Sharp(target, Visible(low), o) && Sharp(e, Visible(low), o);
      script := Once(o);
      SharpVisit(target, scope, low, script);
      SharpVisit(e, scope, low, script);
      var first, second := Seen(target, scope, low, script), Seen(e, scope, low, script);
      assert Visits(s, scope, low, script) == [first] + [second];
      TwoFault(first, second);
    case Let(_, _, _) => script := SimpleFault(s, scope, low);
    case LetTuple(_, _) => script := SimpleFault(s, scope, low);
    case Evaluate(_) => script := SimpleFault(s, scope, low);
  }

  lemma SimpleFault(s: Stmt, scope: Scope, low: Frames) returns (script: Script)
    requires IsOne(s) && Definite(s, low) && !Fine(s, scope, low)
    ensures Breaks(Visits(s, scope, low, script))
  {
    hide Sharp, Breaks, LowHolds, Visible;
    assert CanBeSharp(Only(s), Visible(low));
    var o: Outside :| Sharp(Only(s), Visible(low), o);
    script := Once(o);
    OneFault(Only(s), scope, low, script);
  }

  lemma TwoFault(a: Visit, b: Visit)
    requires Typed(a.e, a.vals, a.outside) && Typed(b.e, b.vals, b.outside) && (!a.Holds() || !b.Holds())
    ensures Breaks([a] + [b])
  {
    hide Typed, Visit.Holds, AllTypedVisits, AllHold;
    OneVisit(a);
    OneVisit(b);
    AppendTyped([a], [b]);
    AppendHolds([a], [b]);
  }

  lemma OneFault(e: Expr, scope: Scope, low: Frames, script: Script)
    requires Sharp(e, Visible(low), script.outside) && !LowHolds(e, scope, Visible(low))
    ensures Breaks([Seen(e, scope, low, script)])
  {
    hide Typed, Visit.Holds, AllTypedVisits, AllHold, LowHolds, Sharp;
    SharpVisit(e, scope, low, script);
    OneVisit(Seen(e, scope, low, script));
  }

  lemma SharpTyped(e: Expr, scope: Scope, low: Frames, script: Script)
    requires Sharp(e, Visible(low), script.outside)
    ensures AllTypedVisits([Seen(e, scope, low, script)])
  {
    hide Typed, AllTypedVisits, Sharp;
    SharpVisit(e, scope, low, script);
    OneVisit(Seen(e, scope, low, script));
  }

  lemma {:induction false} IfFault(s: Stmt, scope: Scope, low: Frames) returns (script: Script)
    requires s.If? && Definite(s, low) && |low| > 0 && !Fine(s, scope, low)
    ensures Breaks(Visits(s, scope, low, script))
    decreases s, 0, 0
  {
    hide Sharp, Breaks, LowHolds, Visible, DefiniteAll, OneUnder, FineAll, AfterAll, LowAfterAll, AllTypedVisits;
    var inner := low + [map[]];
    var o: Outside :| Sharp(s.cond, Visible(low), o);
    if !LowHolds(s.cond, scope, Visible(low)) {
      script := Once(o);
      OneFault(s.cond, scope, low, script);
      assert VisitsAll(s.then_, scope, inner, []) == [];
      assert [Seen(s.cond, scope, low, script)] + [] == [Seen(s.cond, scope, low, script)];
    } else if !FineAll(s.then_, scope, inner) {
      var branch := FaultAll(s.then_, scope, inner);
      script := Script(o, true, branch, []);
      SharpTyped(s.cond, scope, low, script);
      BreaksLater([Seen(s.cond, scope, low, script)], VisitsAll(s.then_, scope, inner, branch));
    } else {
      var branch := FaultAll(s.else_, AfterAll(s.then_, scope), inner);
      script := Script(o, false, branch, []);
      SharpTyped(s.cond, scope, low, script);
      BreaksLater([Seen(s.cond, scope, low, script)], VisitsAll(s.else_, AfterAll(s.then_, scope), inner, branch));
    }
  }

  lemma {:induction false} ForFault(s: Stmt, scope: Scope, low: Frames) returns (script: Script)
    requires s.For? && Definite(s, low) && |low| > 0 && !Fine(s, scope, low)
    ensures Breaks(Visits(s, scope, low, script))
    decreases s, 0, 0
  {
    hide Sharp, Breaks, LowHolds, Visible, DefiniteRounds, FineAll, LowRounds, AllTypedVisits;
    var o: Outside :| Sharp(s.iterable, Visible(low), o);
    if !LowHolds(s.iterable, scope, Visible(low)) {
      script := Once(o);
      OneFault(s.iterable, scope, low, script);
      assert VisitsRounds(s.names, s.body, Untyped(scope, NameSet(s.names)), low, []) == [];
      assert [Seen(s.iterable, scope, low, script)] + [] == [Seen(s.iterable, scope, low, script)];
    } else {
      var rounds := RoundsFault(s.names, s.body, Untyped(scope, NameSet(s.names)), low);
      script := Script(o, true, [], rounds);
      SharpTyped(s.iterable, scope, low, script);
      BreaksLater([Seen(s.iterable, scope, low, script)],
                  VisitsRounds(s.names, s.body, Untyped(scope, NameSet(s.names)), low, rounds));
    }
  }

  /** The rounds that lower what they can, and then the one in which a depth is too much. */
  lemma {:induction false} RoundsFault(names: seq<string>, body: seq<Stmt>, scope: Scope, low: Frames)
    returns (rounds: seq<Round>)
    requires DefiniteRounds(names, body, low) && |low| > 0
    requires !FineAll(body, scope, RoundStart(names, LowRounds(names, body, low)))
    ensures Breaks(VisitsRounds(names, body, scope, low, rounds))
    decreases body, 1, Weight(low)
  {
    hide Breaks, AllTypedVisits, LowAfterAll, DefiniteAll, ThenAll, VisitsAll, FinishesAll, Meet, Popped, OneUnder;
    hide Items, Beneath, FineAll;
    var start := RoundStart(names, low);
    var once := Popped(LowAfterAll(body, start));
    var next := Meet(low, once);
    if next == low {
      var scripts := FaultAll(body, scope, start);
      rounds := [Round(Plain, scripts)];
      assert rounds[0].scripts == scripts && rounds[1..] == [];
      assert VisitsRounds(names, body, scope, Popped(ThenAll(body, start, scripts)), []) == [];
      assert VisitsAll(body, scope, start, scripts) + [] == VisitsAll(body, scope, start, scripts);
    } else {
      MeetBeneath(low, once);
      WeightFalls(next, low);
      MeetIsOne(low, once);
      var scripts := ReachAll(body, scope, start);
      var later := RoundsFault(names, body, scope, next);
      rounds := [Round(Plain, scripts)] + later;
      assert rounds[0].scripts == scripts && rounds[1..] == later;
      BreaksLater(VisitsAll(body, scope, start, scripts), VisitsRounds(names, body, scope, next, later));
    }
  }

  lemma {:induction false} FaultAll(ss: seq<Stmt>, scope: Scope, low: Frames) returns (scripts: seq<Script>)
    requires DefiniteAll(ss, low) && |low| > 0 && !FineAll(ss, scope, low)
    ensures Breaks(VisitsAll(ss, scope, low, scripts))
    decreases ss, 0, 0
  {
    hide Breaks, AllTypedVisits, Visits, After, Then, Finishes, LowAfter, Definite, Fine;
    var s := ss[0];
    if !Fine(s, scope, low) {
      var script := Fault(s, scope, low);
      scripts := [script];
      assert scripts[1..] == [];
      assert VisitsAll(ss[1..], After(s, scope), Then(s, low, script), []) == [];
      assert Visits(s, scope, low, script) + [] == Visits(s, scope, low, script);
    } else {
      var script := Reach(s, scope, low);
      LowLength(s, low);
      var later := FaultAll(ss[1..], After(s, scope), LowAfter(s, low));
      scripts := [script] + later;
      assert scripts[0] == script && scripts[1..] == later;
      BreaksLater(Visits(s, scope, low, script), VisitsAll(ss[1..], After(s, scope), LowAfter(s, low), later));
    }
  }

  // ----- both directions -----

  ghost predicate EveryRunHolds(ss: seq<Stmt>, scope: Scope, low: Frames) {
    forall frames: Frames, scripts: seq<Script> ::
      Beneath(low, frames) && AllTypedVisits(VisitsAll(ss, scope, frames, scripts)) ==>
        AllHold(VisitsAll(ss, scope, frames, scripts))
  }

  /** The depths hold of every run if they hold of the least values; and only if, where
      some run has the least values. */
  lemma ExactlyWhenFine(ss: seq<Stmt>, scope: Scope, low: Frames)
    requires |low| > 0
    ensures FineAll(ss, scope, low) ==> EveryRunHolds(ss, scope, low)
    ensures DefiniteAll(ss, low) ==> (FineAll(ss, scope, low) <==> EveryRunHolds(ss, scope, low))
  {
    hide Beneath, AllTypedVisits, AllHold, VisitsAll, FineAll, DefiniteAll;
    if FineAll(ss, scope, low) {
      forall frames: Frames, scripts: seq<Script> | Beneath(low, frames) &&
          AllTypedVisits(VisitsAll(ss, scope, frames, scripts))
        ensures AllHold(VisitsAll(ss, scope, frames, scripts))
      {
        AllNeverTooDeep(ss, scope, low, frames, scripts);
      }
    } else if DefiniteAll(ss, low) {
      var scripts := FaultAll(ss, scope, low);
      BeneathItself(low);
      assert !AllHold(VisitsAll(ss, scope, low, scripts));
    }
  }
}
