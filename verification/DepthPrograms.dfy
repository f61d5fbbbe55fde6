/** Programs on either side of the condition: what one assignment and one branch need, the
    loops the analyzer gets right, and the ways it counts too much. */
module DepthPrograms {
  import opened Depth
  import opened DepthRuns
  import opened DepthLows
  import opened DepthExact
  import opened DepthTame

  // ----- one assignment, one branch -----

  lemma NameHolds(x: string, scope: Scope, low: Vals)
    requires x in scope && x in low
    ensures LowHolds(Ident(x), scope, low) <==> Fits(scope[x], low[x])
  {
    hide Fits;
    NothingAtMost();
  }

  lemma TwoFine(s: Stmt, t: Stmt, scope: Scope, low: Frames)
    ensures FineAll([s, t], scope, low) <==> Fine(s, scope, low) && Fine(t, After(s, scope), LowAfter(s, low))
  {
    hide Fine, After, LowAfter;
    assert [s, t][1..] == [t] && [t][1..] == [];
    assert FineAll([t], After(s, scope), LowAfter(s, low)) ==
      (Fine(t, After(s, scope), LowAfter(s, low)) &&
          FineAll([], After(t, After(s, scope)), LowAfter(t, LowAfter(s, low))));
  }

  /** A name that is assigned and then read: the program is fine exactly when the least
      value assigned fits the type that stays. */
  lemma AssignmentFine(x: string, e: Expr, scope: Scope, low: Frames)
    requires x in Visible(low) && x in scope
    requires LowHolds(Ident(x), scope, Visible(low)) && LowHolds(e, scope, Visible(low))
    ensures FineAll([Assign(Ident(x), e), Evaluate(Ident(x))], scope, low) <==> Fits(scope[x], LowOf(e, Visible(low)))
  {
    hide LowHolds, Fits, LowOf, Visible, Set;
    var v := LowOf(e, Visible(low));
    TwoFine(Assign(Ident(x), e), Evaluate(Ident(x)), scope, low);
    VisibleSet(low, x, v);
    NameHolds(x, scope, Visible(Set(low, x, v)));
  }

  lemma {:induction false} SetLowers(low: Frames, x: string, v: Val)
    requires x in Visible(low) ==> AtMost(v, Visible(low)[x])
    ensures Beneath(Set(low, x, v), low)
    decreases |low|
  {
    BeneathItself(low);
    if |low| > 0 {
      var n := |low| - 1;
      if x in low[n] {
        forall i | 0 <= i < |low| ensures FrameBeneath(Set(low, x, v)[i], low[i]) {}
      } else {
        SetLowers(low[..n], x, v);
        assert low == low[..n] + [low[n]] && FrameBeneath(low[n], low[n]);
        BeneathPush(Set(low[..n], x, v), low[..n], low[n], low[n]);
      }
    }
  }

  /** Set or not set: the name is worth the lower of the two. */
  lemma SetOrNot(low: Frames, x: string, v: Val)
    requires x in Visible(low)
    ensures var both := Meet(Set(low, x, v), low); x in Visible(both) && Visible(both)[x] == Lower(v, Visible(low)[x])
  {
    hide Beneath, Visible, Set, Meet;
    VisibleSet(low, x, v);
    if AtMost(v, Visible(low)[x]) {
      SetLowers(low, x, v);
    } else {
      SetRaises(low, x, v);
    }
    MeetIsOne(Set(low, x, v), low);
    if Beneath(Set(low, x, v), low) {
      BeneathVisible(Set(low, x, v), low);
    }
  }

  lemma OneBind(low: Frames, x: string, v: Val, form: Form)
    ensures Popped(Bind(low + [map[]], x, v, form)) == if form.Again? then Set(low, x, v) else low
  {
    var inner := low + [map[]];
    assert inner[..|low|] == low && inner[|low|] == map[];
  }

  /** A name that a branch declares, or sets, and that is read after it: the program is fine
      exactly when the branch's type fits what the name is worth around the branch. */
  lemma BranchLetFine(c: Expr, x: string, e: Expr, form: Form, scope: Scope, low: Frames)
    requires |low| > 0 && x in Visible(low) && LowHolds(c, scope, Visible(low)) && LowHolds(e, scope, Visible(low))
    ensures FineAll([If(c, [Let(x, e, form)], []), Evaluate(Ident(x))], scope, low) <==>
        Fits(TypeOf(e, scope), Visible(low)[x])
  {
    hide LowHolds, Fits, LowOf, Visible, Meet, TypeOf, Set, Bind;
    var let, if_ := Let(x, e, form), If(c, [Let(x, e, form)], []);
    var inner, after := low + [map[]], scope[x := TypeOf(e, scope)];
    TwoFine(if_, Evaluate(Ident(x)), scope, low);
    VisiblePush(low, map[]);
    assert Visible(low) + map[] == Visible(low);
    assert [let][1..] == [] && AfterAll([], after) == after && AfterAll([let], scope) == AfterAll([], after);
    assert After(if_, scope) == after;
    var v := LowOf(e, Visible(low));
    OneBind(low, x, v, form);
    assert LowAfterAll([], Bind(inner, x, v, form)) == Bind(inner, x, v, form);
    assert LowAfterAll([let], inner) == Bind(inner, x, v, form);
    assert inner[..|low|] == low && Popped(inner) == low && LowAfterAll([], inner) == inner;
    assert LowAfter(if_, low) == Meet(if form.Again? then Set(low, x, v) else low, low);
    assert FineAll([], after, inner) && FineAll([], After(let, scope), LowAfter(let, inner));
    assert FineAll([let], scope, inner);
    assert FineAll([], AfterAll([let], scope), inner);
    assert Fine(if_, scope, low);
    if form.Again? {
      SetOrNot(low, x, v);
    } else {
      BeneathItself(low);
      MeetIsOne(low, low);
    }
    FineEvaluate(Ident(x), after, LowAfter(if_, low));
    NameHolds(x, after, Visible(LowAfter(if_, low)));
    LowerFits(TypeOf(e, scope), v, Visible(low)[x]);
    HoldsFits(e, scope, Visible(low));
  }

  lemma HoldsFits(e: Expr, scope: Scope, low: Vals)
    requires LowHolds(e, scope, low)
    ensures Fits(TypeOf(e, scope), LowOf(e, low))
  {}

  lemma LowerFits(t: Ty, v: Val, u: Val)
    ensures Fits(t, v) ==> (Fits(t, Lower(v, u)) <==> Fits(t, u))
  {}

  // ----- loops it gets right -----

  /** A sum of products, for (...) { acc = acc + x * y }, whatever the depths; and so the
      same with a let, where acc is a let's around the loop. */
  lemma AccumulatorIsTame(names: seq<string>, iterable: Expr, acc: string, x: string, y: string, scope: Scope,
          visible: set<string>, local: set<string>)
    requires {acc, x, y} <= visible && NamesOf(iterable) <= visible && acc !in names
    requires acc in scope ==> scope[acc].kind == Enc || scope[acc].depth == 0
    ensures
      var sum := Binary(PlusMinusOver, Ident(acc), Binary(Times, Ident(x), Ident(y)));
      && Tame(For(names, iterable, [Assign(Ident(acc), sum)]), scope, Held(scope, visible), local)
      && Tame(For(names, iterable, [Let(acc, sum, Again)]), scope, Held(scope, visible), local)
  {
    var sum := Binary(PlusMinusOver, Ident(acc), Binary(Times, Ident(x), Ident(y)));
    var inner, held := Untyped(scope, NameSet(names)), Held(scope, visible) + Items(NameSet(names), Plain);
    assert NamesOf(sum) == NamesOf(Ident(acc)) + NamesOf(Binary(Times, Ident(x), Ident(y)));
    assert NamesOf(Binary(Times, Ident(x), Ident(y))) == {x} + {y};
    SumKeepsDepth(acc, Binary(Times, Ident(x), Ident(y)), inner, held);
    OneTame(Assign(Ident(acc), sum), inner, held, NameSet(names));
    OneTame(Let(acc, sum, Again), inner, held, NameSet(names));
  }

  lemma OneTame(s: Stmt, scope: Scope, held: Vals, local: set<string>)
    ensures TameAll([s], scope, held, local) <==> Tame(s, scope, held, local)
  {
    hide Tame, After, NextHeld, Declares;
    assert [s][1..] == [];
    assert TameAll([], After(s, scope), NextHeld(s, scope, held), local + Declares(s));
  }

  lemma SumKeepsDepth(acc: string, e: Expr, scope: Scope, held: Vals)
    requires acc in scope ==> scope[acc].kind == Enc || scope[acc].depth == 0
    requires acc in held ==> held[acc] == LeastFor(scope, acc)
    ensures NoLess(acc, Binary(PlusMinusOver, Ident(acc), e), scope, held)
  {
    hide TypeOf;
    if acc in scope {
      var l, r := TypeOf(Ident(acc), scope), TypeOf(e, scope);
      assert TypeOf(Ident(acc), scope) == scope[acc] by { NameType(acc, scope); }
      SumType(Ident(acc), e, scope);
      assert scope[acc].kind == Enc ==> CommonType(l, r) == l;
    }
  }

  lemma NameType(x: string, scope: Scope)
    requires x in scope
    ensures TypeOf(Ident(x), scope) == scope[x]
  {}

  lemma SumType(l: Expr, r: Expr, scope: Scope)
    ensures TypeOf(Binary(PlusMinusOver, l, r), scope) == CommonType(TypeOf(l, scope), TypeOf(r, scope))
  {}

  /** A counter: for (...) { n = n + 1 }. */
  lemma CounterIsTame(names: seq<string>, iterable: Expr, n: string, scope: Scope, visible: set<string>,
          local: set<string>)
    requires n in visible && NamesOf(iterable) <= visible && n !in names && (n in scope ==> scope[n] == INT)
    ensures
      var next := Binary(PlusMinusOver, Ident(n), IntLit);
      Tame(For(names, iterable, [Assign(Ident(n), next)]), scope, Held(scope, visible), local)
  {
    var step := Assign(Ident(n), Binary(PlusMinusOver, Ident(n), IntLit));
    var inner, held := Untyped(scope, NameSet(names)), Held(scope, visible) + Items(NameSet(names), Plain);
    assert NamesOf(Binary(PlusMinusOver, Ident(n), IntLit)) == {n};
    SumKeepsDepth(n, IntLit, inner, held);
    OneTame(step, inner, held, NameSet(names));
  }

  /** A branch may have a let of a visible name exactly when its type says no more than what
      the name is held to be worth, and no less if the let sets the name. */
  lemma BranchLetIsTame(c: Expr, x: string, e: Expr, form: Form, scope: Scope, held: Vals, local: set<string>)
    requires x in held && NamesOf(c) <= held.Keys && NamesOf(e) <= held.Keys && Covers(scope, held)
    ensures Tame(If(c, [Let(x, e, form)], []), scope, held, local) <==>
        Fits(TypeOf(e, scope), held[x]) && (form.Again? ==> NoLess(x, e, scope, held))
  {
    hide TypeOf, NamesOf, Fits;
    var let, after := Let(x, e, form), scope[x := TypeOf(e, scope)];
    assert [let][1..] == [] && AfterAll([], after) == after;
    assert AfterAll([let], scope) == AfterAll([], after);
    assert After(If(c, [let], []), scope) == AfterAll([], AfterAll([let], scope)) == after;
    assert TameAll([], after, held, {});
    OneTame(let, scope, held, {});
    if Fits(TypeOf(e, scope), held[x]) {
      assert Covers(after, held);
    } else {
      assert !Covers(after, held);
    }
  }

  // ----- programs it gets wrong -----

  const A: Expr := Ident("a")
  const X: Expr := Ident("x")
  const XA: Expr := Binary(Times, X, A)
  const AA: Expr := Binary(Times, A, A)
  const START: Scope := map["a" := Ty(Enc, true, 0)]

  lemma ProductTypes(scope: Scope, x: nat)
    requires "a" in scope && scope["a"] == Ty(Enc, true, 0) && "x" in scope && scope["x"] == Ty(Enc, true, x)
    ensures TypeOf(XA, scope) == Ty(Enc, true, x + 1)
  {
    assert TypeOf(X, scope) == scope["x"] && TypeOf(A, scope) == scope["a"];
  }

  lemma ProductValues(vals: Vals, outside: Outside, x: nat)
    requires "a" in vals && vals["a"] == Cipher(0) && "x" in vals && vals["x"] == Cipher(x)
    ensures ValOf(XA, vals, outside) == Cipher(x + 1)
  {
    assert ValOf(X, vals, outside) == vals["x"] && ValOf(A, vals, outside) == vals["a"];
  }

  lemma FirstProduct(scope: Scope)
    requires "a" in scope && scope["a"] == Ty(Enc, true, 0)
    ensures TypeOf(AA, scope) == Ty(Enc, true, 1) && TypeOf(A, scope) == Ty(Enc, true, 0)
  {
    assert TypeOf(A, scope) == scope["a"];
  }

  const START_LOW: Frames := [map["a" := Cipher(0)]]
  const DEEP: Scope := map["a" := Ty(Enc, true, 0), "x" := Ty(Enc, true, 1)]
  const FLAT: Vals := map["a" := Cipher(0), "x" := Cipher(0)]

  /** x = a * a, and then x = a, assigned. */
  const ASSIGNED: seq<Stmt> := [Let("x", AA, Fresh), Assign(X, A)]

  /** x = a, and a branch with its own let of x = x * a. */
  const BRANCHED: seq<Stmt> := [Let("x", A, Fresh), If(IntLit, [Let("x", XA, Fresh)], [])]

  /** x = a * a, and a loop with a let of x = a. */
  const LOOPED: seq<Stmt> := [Let("x", AA, Fresh), For(["i"], IntLit, [Let("x", A, Fresh)])]

  /** x = a * a, and a branch with a let of x = a or one of x = a * a. */
  const EITHER_LET: seq<Stmt> :=
    [Let("x", AA, Fresh), If(IntLit, [Let("x", A, Fresh)], [Let("x", AA, Fresh)])]

  lemma EmittedTwo(s: Stmt, t: Stmt, u: Stmt, noted: set<string>)
    requires !t.Let?
    ensures EmittedAll([s, t] + [u], noted)
         == [Emitted(s, noted), Emitted(t, Noted(s, noted))] + [Emitted(u, Noted(s, noted))]
  {
    hide Emitted;
    var ss := [s, t] + [u];
    assert ss[1..] == [t, u] && [t, u][1..] == [u] && [u][1..] == [];
    var after := Noted(s, noted);
    assert EmittedAll([u], after) == [Emitted(u, after)] + EmittedAll([], Noted(u, after));
    assert EmittedAll([t, u], after) == [Emitted(t, after)] + EmittedAll([u], Noted(t, after));
  }

  lemma EmittedOne(s: Stmt, noted: set<string>)
    ensures EmittedAll([s], noted) == [Emitted(s, noted)]
  {
    hide Emitted;
    assert [s][1..] == [];
  }

  lemma XNoted(e: Expr)
    ensures Noted(Let("x", e, Fresh), {}) == {"x"} && Emitted(Let("x", e, Fresh), {}) == Let("x", e, Fresh)
  {}

  /** What is emitted for the four, before the product x * a is read. */
  lemma EmittedPrograms()
    ensures EmittedAll(ASSIGNED + [Evaluate(XA)], {}) == ASSIGNED + [Evaluate(XA)]
    ensures EmittedAll(BRANCHED + [Evaluate(XA)], {})
         == [BRANCHED[0], If(IntLit, [Let("x", XA, Again)], [])] + [Evaluate(XA)]
    ensures EmittedAll(LOOPED + [Evaluate(XA)], {})
         == [LOOPED[0], For(["i"], IntLit, [Let("x", A, Again)])] + [Evaluate(XA)]
    ensures EmittedAll(EITHER_LET + [Evaluate(XA)], {})
         == [EITHER_LET[0], If(IntLit, [Let("x", A, Again)], [Let("x", AA, Again)])] + [Evaluate(XA)]
  {
    XNoted(AA);
    XNoted(A);
    EmittedOne(Let("x", A, Fresh), {"x"});
    EmittedOne(Let("x", XA, Fresh), {"x"});
    EmittedOne(Let("x", AA, Fresh), {"x"});
    EmittedTwo(ASSIGNED[0], ASSIGNED[1], Evaluate(XA), {});
    EmittedTwo(BRANCHED[0], BRANCHED[1], Evaluate(XA), {});
    EmittedTwo(LOOPED[0], LOOPED[1], Evaluate(XA), {});
    EmittedTwo(EITHER_LET[0], EITHER_LET[1], Evaluate(XA), {});
  }

  lemma ANotX()
    ensures "a" != "x"
  {
    assert "a"[0] != "x"[0];
  }

  lemma OneFrame(vals: Vals)
    ensures Visible([vals]) == vals
  {
    var frames: Frames := [vals];
    assert frames[..0] == [];
    var none: Vals := map[];
    assert Visible(frames[..0]) == none && none + vals == vals;
  }

  lemma AValue(frames: Frames, script: Script, vals: Vals)
    requires frames == [vals] && "a" in vals && vals["a"] == Cipher(0)
    ensures Values(A, frames, script) == Cipher(0)
  {
    OneFrame(vals);
    assert ValOf(A, vals, script.outside) == vals["a"];
  }

  lemma TwoScopes(s: Stmt, t: Stmt, scope: Scope)
    ensures AfterAll([s, t], scope) == After(t, After(s, scope)) && AfterAll([s], scope) == After(s, scope)
  {
    hide After;
    assert [s, t][1..] == [t] && [t][1..] == [] && [s][1..] == [];
    assert forall u :: AfterAll([], u) == u;
    assert AfterAll([t], After(s, scope)) == AfterAll([t][1..], After(t, After(s, scope)));
  }

  lemma LetFrames(x: string, e: Expr, vals: Vals, script: Script, v: Val)
    requires Values(e, [vals], script) == v
    ensures Then(Let(x, e, Fresh), [vals], script) == [vals[x := v]]
  {
    hide Values;
    var frames: Frames := [vals];
    assert frames[..0] == [] && [] + [vals + map[x := v]] == [vals + map[x := v]];
    assert vals + map[x := v] == vals[x := v];
    assert frames[|frames| - 1] == vals;
    assert Define(frames, map[x := v]) == [vals[x := v]];
  }

  lemma SetFrames(x: string, e: Expr, vals: Vals, script: Script, v: Val)
    requires Values(e, [vals], script) == v && x in vals
    ensures Then(Assign(Ident(x), e), [vals], script) == [vals[x := v]]
  {
    hide Values;
    var frames: Frames := [vals];
    assert frames[..0] == [] && [] + [vals[x := v]] == [vals[x := v]];
  }

  lemma TwoSteps(s: Stmt, t: Stmt, frames: Frames, script: Script)
    ensures ThenAll([s, t], frames, [script, script]) == Then(t, Then(s, frames, script), script)
  {
    hide Then;
    assert [s, t][1..] == [t] && [t][1..] == [];
    assert [script, script][1..] == [script] && [script][1..] == [];
    var next := Then(s, frames, script);
    assert ThenAll([t], next, [script]) == ThenAll([t][1..], Then(t, next, script), [script][1..]);
    assert ThenAll([s, t], frames, [script, script]) == ThenAll([s, t][1..], next, [script, script][1..]);
  }

  /** The scope of a program that counts x one level deep. */
  lemma ScopeOf(e: Expr, t: Stmt, d: nat)
    requires TypeOf(e, START) == Ty(Enc, true, d) && After(t, START["x" := Ty(Enc, true, d)]) == DEEP
    ensures AfterAll([Let("x", e, Fresh), t], START) == DEEP
  {
    TwoScopes(Let("x", e, Fresh), t, START);
  }

  /** The analyzer counts two levels for x * a in all four. */
  lemma CountedTwice()
    ensures AfterAll(ASSIGNED, START) == DEEP && AfterAll(LOOPED, START) == DEEP
    ensures AfterAll(BRANCHED, START) == DEEP && AfterAll(EITHER_LET, START) == DEEP
    ensures TypeOf(XA, DEEP).depth == 2
  {
    ANotX();
    FirstProduct(START);
    FirstProduct(DEEP);
    ProductTypes(DEEP, 1);
    var flat := START["x" := Ty(Enc, true, 0)];
    ProductTypes(flat, 0);
    FirstProduct(flat);
    assert START["x" := Ty(Enc, true, 1)] == DEEP && flat["x" := Ty(Enc, true, 1)] == DEEP;
    OneScope(Let("x", XA, Fresh), flat);
    OneScope(Let("x", A, Fresh), DEEP);
    OneScope(Let("x", AA, Fresh), DEEP["x" := Ty(Enc, true, 0)]);
    FirstProduct(DEEP["x" := Ty(Enc, true, 0)]);
    assert DEEP["x" := Ty(Enc, true, 0)]["x" := Ty(Enc, true, 1)] == DEEP;
    assert AfterAll([], DEEP) == DEEP;
    ScopeOf(AA, ASSIGNED[1], 1);
    ScopeOf(AA, LOOPED[1], 1);
    ScopeOf(A, BRANCHED[1], 0);
    ScopeOf(AA, EITHER_LET[1], 1);
  }

  lemma OneScope(s: Stmt, scope: Scope)
    ensures AfterAll([s], scope) == After(s, scope)
  {
    hide After;
    assert [s][1..] == [] && AfterAll([], After(s, scope)) == After(s, scope);
  }

  lemma {:induction false} SetInner(vals: Vals, inner: Vals, v: Val)
    requires "x" in vals && "x" !in inner
    ensures Popped(Set([vals] + [inner], "x", v)) == [vals["x" := v]]
  {
    var frames: Frames := [vals] + [inner];
    assert frames[..1] == [vals] && [vals][..0] == [] && frames[1] == inner;
    assert Set([vals], "x", v) == [] + [vals["x" := v]] == [vals["x" := v]];
    assert Set(frames, "x", v) == [vals["x" := v]] + [inner];
  }

  /** A let that sets x to a in a block of its own. */
  lemma AgainInner(vals: Vals, inner: Vals, script: Script)
    requires "a" in vals && vals["a"] == Cipher(0) && "x" in vals && "x" !in inner && "a" !in inner
    ensures Popped(Then(Let("x", A, Again), [vals] + [inner], script)) == [vals["x" := Cipher(0)]]
  {
    hide Set, Visible;
    OneFrame(vals);
    VisiblePush([vals], inner);
    assert ValOf(A, vals + inner, script.outside) == vals["a"];
    SetInner(vals, inner, Cipher(0));
  }

  /** A script that takes a branch, and goes round once. */
  function Straight(outside: Outside): Script {
    Script(outside, true, [Once(outside)], [Round(Plain, [Once(outside)])])
  }

  predicate Easy(vs: seq<Visit>) {
    forall i :: 0 <= i < |vs| ==> vs[i].e in [IntLit, A, X, AA, XA]
  }

  lemma EasyTyped(vs: seq<Visit>)
    requires Easy(vs)
    ensures AllTypedVisits(vs)
  {
    forall i | 0 <= i < |vs| ensures Typed(vs[i].e, vs[i].vals, vs[i].outside) {
      assert vs[i].e in [IntLit, A, X, AA, XA];
    }
  }

  /** The analyzer counts two levels for x * a after the first two statements, the run one;
      so the program is not fine, and not tame. */
  ghost predicate CountsTwoForOne(code: seq<Stmt>, script: Script)
    requires |code| == 3
  {
    && TypeOf(XA, AfterAll(code[..2], START)).depth == 2
    && ValOf(XA, Visible(ThenAll(code[..2], START_LOW, [script, script])), script.outside) == Cipher(1)
    && Breaks(VisitsAll(code, START, START_LOW, [script, script] + [script]))
    && !FineAll(code, START, START_LOW)
    && !TameAll(code, START, Held(START, Visible(START_LOW).Keys), LocalNames(START_LOW))
  }

  /** A run of two statements that leaves x worth a, where the analyzer says a level more. */
  lemma TwoBreak(s: Stmt, t: Stmt, script: Script)
    requires Finishes(s, script) && Finishes(t, script) && AfterAll([s, t], START) == DEEP
    requires ThenAll([s, t], START_LOW, [script, script]) == [FLAT]
    requires Easy(Visits(s, START, START_LOW, script))
    requires Easy(Visits(t, After(s, START), Then(s, START_LOW, script), script))
    ensures CountsTwoForOne([s, t] + [Evaluate(XA)], script)
  {
    hide Visits, ThenAll, AfterAll, FineAll, Breaks, Visible, Finishes, After, Then, AllTypedVisits, VisitsAll, TameAll;
    ANotX();
    CountedTwice();
    TwoVisits(s, t, START, START_LOW, script);
    EasyTyped(VisitsAll([s, t], START, START_LOW, [script, script]));
    TwoFinish(s, t, script);
    OneFrame(FLAT);
    ProductValues(FLAT, script.outside, 0);
    LastTooDeep([s, t], XA, START, START_LOW, [script, script], script);
    NotTame([s, t] + [Evaluate(XA)], [script, script] + [script]);
    assert ([s, t] + [Evaluate(XA)])[..2] == [s, t];
  }

  lemma NotTame(code: seq<Stmt>, scripts: seq<Script>)
    requires Breaks(VisitsAll(code, START, START_LOW, scripts))
    ensures !TameAll(code, START, Held(START, Visible(START_LOW).Keys), LocalNames(START_LOW))
  {
    hide TameAll, VisitsAll, AllTypedVisits, AllHold, LocalNames, Held;
    OneFrame(START_LOW[0]);
    assert START_LOW == [START_LOW[0]] && Below(START, START_LOW);
    if TameAll(code, START, Held(START, Visible(START_LOW).Keys), LocalNames(START_LOW)) {
      TameNeverTooDeep(code, START, START_LOW, scripts);
    }
  }

  lemma TwoFinish(s: Stmt, t: Stmt, script: Script)
    requires Finishes(s, script) && Finishes(t, script)
    ensures FinishesAll([s, t], [script, script])
  {
    hide Finishes;
    assert [s, t][1..] == [t] && [t][1..] == [] && [script, script][1..] == [script] && [script][1..] == [];
    assert FinishesAll([], []) && FinishesAll([t], [script]);
  }

  lemma FirstLet(e: Expr, script: Script, v: Val)
    requires Values(e, START_LOW, script) == v
    ensures Then(Let("x", e, Fresh), START_LOW, script) == [map["a" := Cipher(0), "x" := v]]
  {
    hide Values;
    ANotX();
    LetFrames("x", e, START_LOW[0], script, v);
    assert START_LOW == [START_LOW[0]];
    assert START_LOW[0]["x" := v] == map["a" := Cipher(0), "x" := v];
  }

  // ----- and so they are not fine -----

  lemma {:induction false} VisitsLast(before: seq<Stmt>, t: Stmt, scope: Scope, frames: Frames, scripts: seq<Script>,
          script: Script)
    requires |before| == |scripts| && FinishesAll(before, scripts)
    ensures VisitsAll(before + [t], scope, frames, scripts + [script])
         == VisitsAll(before, scope, frames, scripts) +
             Visits(t, AfterAll(before, scope), ThenAll(before, frames, scripts), script)
    decreases |before|
  {
    hide Visits, After, Then, Finishes;
    var ss, all := before + [t], scripts + [script];
    if |before| == 0 {
      assert ss[1..] == [] && ss[0] == t && all[0] == script;
      var now := Visits(t, scope, frames, script);
      assert VisitsAll([], After(t, scope), Then(t, frames, script), all[1..]) == [];
      assert now + [] == now && [] + now == now;
    } else {
      assert ss[0] == before[0] && ss[1..] == before[1..] + [t] && all[0] == scripts[0] &&
          all[1..] == scripts[1..] + [script];
      VisitsLast(before[1..], t, After(before[0], scope), Then(before[0], frames, scripts[0]), scripts[1..], script);
    }
  }

  /** A program that runs to an expression whose depth is too much is not fine. */
  lemma LastTooDeep(before: seq<Stmt>, e: Expr, scope: Scope, frames: Frames, scripts: seq<Script>, script: Script)
    requires |frames| > 0 && |before| == |scripts| && FinishesAll(before, scripts)
    requires AllTypedVisits(VisitsAll(before, scope, frames, scripts)) &&
        Typed(e, Visible(ThenAll(before, frames, scripts)), script.outside)
    requires var v := ValOf(e, Visible(ThenAll(before, frames, scripts)), script.outside);
      TypeOf(e, AfterAll(before, scope)).depth > v.Chain()
    ensures Breaks(VisitsAll(before + [Evaluate(e)], scope, frames, scripts + [script]))
    ensures !FineAll(before + [Evaluate(e)], scope, frames)
  {
    hide AllTypedVisits, VisitsAll, FinishesAll, ThenAll, AfterAll, Typed, AllHold, FineAll, EachAtMost;
    var last := Seen(e, AfterAll(before, scope), ThenAll(before, frames, scripts), script);
    VisitsLast(before, Evaluate(e), scope, frames, scripts, script);
    OneVisit(last);
    AppendTyped(VisitsAll(before, scope, frames, scripts), [last]);
    AppendHolds(VisitsAll(before, scope, frames, scripts), [last]);
    if FineAll(before + [Evaluate(e)], scope, frames) {
      BeneathItself(frames);
      AllNeverTooDeep(before + [Evaluate(e)], scope, frames, frames, scripts + [script]);
    }
  }

  lemma TwoVisits(s: Stmt, t: Stmt, scope: Scope, frames: Frames, script: Script)
    requires Finishes(s, script)
    ensures VisitsAll([s, t], scope, frames, [script, script])
         == Visits(s, scope, frames, script) + Visits(t, After(s, scope), Then(s, frames, script), script)
  {
    hide Visits, After, Then, Finishes;
    assert [s, t][1..] == [t] && [t][1..] == [] && [script, script][1..] == [script] && [script][1..] == [];
    var next := Then(s, frames, script);
    var later := Visits(t, After(s, scope), next, script);
    assert VisitsAll([], After(t, After(s, scope)), Then(t, next, script), []) == [];
    assert VisitsAll([t], After(s, scope), next, [script]) == later + [] == later;
  }

  /** A let of x, and a statement that leaves x worth a. */
  lemma SecondBreaks(e: Expr, v: Val, source: Stmt, t: Stmt, script: Script)
    requires (e == A || e == AA) && Values(e, START_LOW, script) == v
    requires AfterAll([Let("x", e, Fresh), source], START) == DEEP
    requires var scope := START["x" := TypeOf(e, START)];
      After(t, scope) == After(source, scope) && Easy(Visits(t, scope, [XWorth(v)], script))
    requires Finishes(t, script) && Then(t, [XWorth(v)], script) == [FLAT]
    ensures CountsTwoForOne([Let("x", e, Fresh), t] + [Evaluate(XA)], script)
  {
    hide CountsTwoForOne, Values, TypeOf, AfterAll, ThenAll;
    var let := Let("x", e, Fresh);
    FirstLet(e, script, v);
    FirstVisit(e, script);
    hide Then, Visits, After, Finishes;
    TwoSteps(let, t, START_LOW, script);
    LetScope(e);
    SameAfter(let, source, t);
    TwoBreak(let, t, script);
  }

  function XWorth(v: Val): Vals {
    map["a" := Cipher(0), "x" := v]
  }

  lemma LetScope(e: Expr)
    ensures After(Let("x", e, Fresh), START) == START["x" := TypeOf(e, START)]
  {}

  lemma FirstVisit(e: Expr, script: Script)
    requires e == A || e == AA
    ensures Easy(Visits(Let("x", e, Fresh), START, START_LOW, script)) && Finishes(Let("x", e, Fresh), script)
  {}

  lemma SameAfter(s: Stmt, t: Stmt, u: Stmt)
    requires AfterAll([s, t], START) == DEEP && After(u, After(s, START)) == After(t, After(s, START))
    ensures AfterAll([s, u], START) == DEEP
  {
    hide After;
    TwoScopes(s, t, START);
    TwoScopes(s, u, START);
  }

  /** An assignment is not seen: x = a * a, then x = a, and x * a counts two levels for one. */
  lemma AssignmentBreaks(outside: Outside)
    ensures var code := EmittedAll(ASSIGNED + [Evaluate(XA)], {});
      |code| == 3 && CountsTwoForOne(code, Straight(outside))
  {
    hide CountsTwoForOne, Values, AfterAll, EmittedAll;
    EmittedPrograms();
    CountedTwice();
    ANotX();
    var script := Straight(outside);
    var v := Values(AA, START_LOW, script);
    AValue([XWorth(v)], script, XWorth(v));
    SetFrames("x", A, XWorth(v), script, Cipher(0));
    assert XWorth(v)["x" := Cipher(0)] == FLAT;
    SecondBreaks(AA, v, ASSIGNED[1], ASSIGNED[1], script);
  }

  /** A branch's let is counted after the branch, taken or not: x = a, a branch with its own
      x = x * a that is not taken, and x * a counts two levels for one. */
  lemma BranchBreaks(outside: Outside)
    ensures var code := EmittedAll(BRANCHED + [Evaluate(XA)], {});
      |code| == 3 && CountsTwoForOne(code, Straight(outside).(taken := false))
  {
    var script := Straight(outside).(taken := false);
    var if_ := If(IntLit, [Let("x", XA, Again)], []);
    AValue(START_LOW, script, START_LOW[0]);
    SkipRun(script, START["x" := TypeOf(A, START)]);
    LetAfter(START["x" := TypeOf(A, START)]);
    EmittedPrograms();
    CountedTwice();
    assert XWorth(Cipher(0)) == FLAT;
    hide *;
    SecondBreaks(A, Cipher(0), BRANCHED[1], if_, script);
  }

  lemma SkipRun(script: Script, scope: Scope)
    requires !script.taken
    ensures var if_ := If(IntLit, [Let("x", XA, Again)], []);
      && Then(if_, [FLAT], script) == [FLAT] && Finishes(if_, script) && Easy(Visits(if_, scope, [FLAT], script))
  {
    var none: seq<Stmt> := [];
    assert ThenAll(none, [FLAT] + [map[]], script.branch) == [FLAT] + [map[]];
    assert Popped([FLAT] + [map[]]) == [FLAT];
    assert FinishesAll(none, script.branch);
  }

  lemma LetAfter(scope: Scope)
    ensures After(If(IntLit, [Let("x", XA, Again)], []), scope) == After(BRANCHED[1], scope)
  {
    hide TypeOf;
    OneScope(Let("x", XA, Again), scope);
    OneScope(Let("x", XA, Fresh), scope);
    assert AfterAll([], scope["x" := TypeOf(XA, scope)]) == scope["x" := TypeOf(XA, scope)];
  }

  /** A let in a loop is emitted as an assignment to the let around it, and not counted after
      the loop: x = a * a, a loop with a let of x = a, and x * a counts two levels for one. */
  lemma LoopLetBreaks(outside: Outside)
    ensures var code := EmittedAll(LOOPED + [Evaluate(XA)], {});
      |code| == 3 && CountsTwoForOne(code, Straight(outside))
  {
    var script := Straight(outside);
    var loop := For(["i"], IntLit, [Let("x", A, Again)]);
    var v := Values(AA, START_LOW, script);
    ANotX();
    LoopRun(XWorth(v), script, START["x" := TypeOf(AA, START)]);
    assert XWorth(v)["x" := Cipher(0)] == FLAT;
    EmittedPrograms();
    CountedTwice();
    LoopAfter(START["x" := TypeOf(AA, START)]);
    hide *;
    SecondBreaks(AA, v, LOOPED[1], loop, script);
  }

  lemma LoopAfter(scope: Scope)
    ensures After(For(["i"], IntLit, [Let("x", A, Again)]), scope) == After(LOOPED[1], scope)
  {}

  lemma LoopRun(m: Vals, script: Script, scope: Scope)
    requires "a" in m && m["a"] == Cipher(0) && "x" in m && script == Straight(script.outside)
    ensures var loop := For(["i"], IntLit, [Let("x", A, Again)]);
      && Then(loop, [m], script) == [m["x" := Cipher(0)]] && Finishes(loop, script)
      && Easy(Visits(loop, scope, [m], script))
  {
    hide Values, Visible, Bind;
    var body, once := [Let("x", A, Again)], Once(script.outside);
    var items := Items(NameSet(["i"]), Plain);
    assert "i"[0] != "a"[0] && "i"[0] != "x"[0];
    assert items.Keys == {"i"};
    assert body[1..] == [] && [once][1..] == [] && script.rounds[1..] == [] && script.rounds[0] == Round(Plain, [once]);
    AgainInner(m, items, once);
    assert ThenAll([], Then(body[0], [m] + [items], once), []) == Then(body[0], [m] + [items], once);
    assert ThenAll(body, [m] + [items], [once]) == Then(body[0], [m] + [items], once);
    assert ThenRounds(["i"], body, [m["x" := Cipher(0)]], []) == [m["x" := Cipher(0)]];
    assert FinishesAll(body, [once]);
    OneLetVisits(A, Untyped(scope, NameSet(["i"])), [m] + [items], once);
    assert VisitsRounds(["i"], body, Untyped(scope, NameSet(["i"])), [m["x" := Cipher(0)]], []) == [];
  }

  lemma OneLetVisits(e: Expr, scope: Scope, frames: Frames, script: Script)
    ensures VisitsAll([Let("x", e, Again)], scope, frames, [script]) == [Seen(e, scope, frames, script)]
  {
    var let := Let("x", e, Again);
    assert [let][1..] == [] && [script][1..] == [];
    assert VisitsAll([], After(let, scope), Then(let, frames, script), []) == [];
  }

  /** And a branch that is taken, of which the other has the deeper let. */
  lemma EitherLetBreaks(outside: Outside)
    ensures var code := EmittedAll(EITHER_LET + [Evaluate(XA)], {});
      |code| == 3 && CountsTwoForOne(code, Straight(outside))
  {
    var script := Straight(outside);
    var if_ := If(IntLit, [Let("x", A, Again)], [Let("x", AA, Again)]);
    var v := Values(AA, START_LOW, script);
    ANotX();
    IfRun(XWorth(v), script, START["x" := TypeOf(AA, START)], [Let("x", AA, Again)]);
    assert XWorth(v)["x" := Cipher(0)] == FLAT;
    EmittedPrograms();
    CountedTwice();
    EitherAfter(START["x" := TypeOf(AA, START)]);
    hide *;
    SecondBreaks(AA, v, EITHER_LET[1], if_, script);
  }

  lemma EitherAfter(scope: Scope)
    ensures After(If(IntLit, [Let("x", A, Again)], [Let("x", AA, Again)]), scope) == After(EITHER_LET[1], scope)
  {
    hide TypeOf;
    OneScope(Let("x", A, Again), scope);
    OneScope(Let("x", A, Fresh), scope);
    var middle := scope["x" := TypeOf(A, scope)];
    OneScope(Let("x", AA, Again), middle);
    OneScope(Let("x", AA, Fresh), middle);
  }

  lemma IfRun(m: Vals, script: Script, scope: Scope, other: seq<Stmt>)
    requires "a" in m && m["a"] == Cipher(0) && "x" in m && script == Straight(script.outside)
    ensures var if_ := If(IntLit, [Let("x", A, Again)], other);
      && Then(if_, [m], script) == [m["x" := Cipher(0)]] && Finishes(if_, script)
      && Easy(Visits(if_, scope, [m], script))
  {
    hide Values, Visible, Bind;
    var body, once := [Let("x", A, Again)], Once(script.outside);
    assert body[1..] == [] && [once][1..] == [];
    AgainInner(m, map[], once);
    assert ThenAll([], Then(body[0], [m] + [map[]], once), []) == Then(body[0], [m] + [map[]], once);
    assert ThenAll(body, [m] + [map[]], [once]) == Then(body[0], [m] + [map[]], once);
    assert FinishesAll(body, [once]);
    OneLetVisits(A, scope, [m] + [map[]], once);
  }

  // ----- a program that is not fine, although every run is -----

  const Y: Expr := Ident("y")
  const XY: Expr := Binary(Times, X, Y)
  const TWO_DEEP: Scope := map["a" := Ty(Enc, true, 0), "x" := Ty(Enc, true, 2), "y" := Ty(Enc, true, 2)]
  const TWO_DEEP_LOW: Frames := [map["a" := Cipher(0), "x" := Cipher(2), "y" := Cipher(2)]]

  /** One of two variables is replaced. */
  const EITHER: Stmt := If(IntLit, [Assign(X, A)], [Assign(Y, A)])

  lemma EitherNames()
    ensures "a" != "x" && "a" != "y" && "x" != "y"
  {
    assert "a"[0] != "x"[0] && "a"[0] != "y"[0] && "x"[0] != "y"[0];
  }

  lemma ProductDepth()
    ensures TypeOf(XY, TWO_DEEP) == Ty(Enc, true, 3) && After(EITHER, TWO_DEEP) == TWO_DEEP
  {
    EitherNames();
    assert TypeOf(X, TWO_DEEP) == TWO_DEEP["x"] && TypeOf(Y, TWO_DEEP) == TWO_DEEP["y"];
    assert [Assign(X, A)][1..] == [] && [Assign(Y, A)][1..] == [];
    assert AfterAll([], TWO_DEEP) == TWO_DEEP;
    assert AfterAll([Assign(X, A)], TWO_DEEP) == TWO_DEEP && AfterAll([Assign(Y, A)], TWO_DEEP) == TWO_DEEP;
  }

  lemma EitherIsFine()
    ensures Fine(EITHER, TWO_DEEP, TWO_DEEP_LOW)
  {
    hide TypeOf, LowOf, EachAtMost, LowHolds;
    EitherNames();
    OneFrame(TWO_DEEP_LOW[0]);
    VisiblePush(TWO_DEEP_LOW, map[]);
    var inner := TWO_DEEP_LOW + [map[]];
    assert TWO_DEEP_LOW == [TWO_DEEP_LOW[0]] && Visible(inner) == TWO_DEEP_LOW[0];
    NamesEnough(IntLit, TWO_DEEP, TWO_DEEP_LOW[0]);
    NamesEnough(A, TWO_DEEP, TWO_DEEP_LOW[0]);
    NamesEnough(X, TWO_DEEP, TWO_DEEP_LOW[0]);
    NamesEnough(Y, TWO_DEEP, TWO_DEEP_LOW[0]);
    assert [Assign(X, A)][1..] == [] && [Assign(Y, A)][1..] == [];
    assert AfterAll([], TWO_DEEP) == TWO_DEEP && AfterAll([Assign(X, A)], TWO_DEEP) == TWO_DEEP;
    assert Fine(Assign(X, A), TWO_DEEP, inner) && Fine(Assign(Y, A), TWO_DEEP, inner);
    assert FineAll([], After(Assign(X, A), TWO_DEEP), LowAfter(Assign(X, A), inner));
    assert FineAll([], After(Assign(Y, A), TWO_DEEP), LowAfter(Assign(Y, A), inner));
    assert FineAll([Assign(X, A)], TWO_DEEP, inner) && FineAll([Assign(Y, A)], TWO_DEEP, inner);
  }

  lemma SetOuter(m: Vals, x: string, v: Val)
    requires x in m
    ensures Popped(Set([m] + [map[]], x, v)) == [m[x := v]]
  {
    var frames: Frames := [m] + [map[]];
    assert frames[..1] == [m] && [m][..0] == [];
    assert Set([m], x, v) == [] + [m[x := v]] == [m[x := v]];
    assert Set(frames, x, v) == [m[x := v]] + [map[]];
  }

  /** The run's variables after the branch: one of the two is what `a` is worth. */
  lemma EitherValues(m: Vals, script: Script)
    requires "a" in m && "x" in m && "y" in m && Finishes(EITHER, script)
    ensures Then(EITHER, [m], script) == [m[(if script.taken then "x" else "y") := m["a"]]]
  {
    var x := if script.taken then "x" else "y";
    var branch := [Assign(Ident(x), A)];
    var inner := [m] + [map[]];
    assert branch == if script.taken then [Assign(X, A)] else [Assign(Y, A)];
    assert branch[1..] == [];
    OneFrame(m);
    VisiblePush([m], map[]);
    assert Visible(inner) == m;
    assert Values(A, inner, script.branch[0]) == m["a"];
    SetOuter(m, x, m["a"]);
    assert ThenAll(branch, inner, script.branch)
        == ThenAll(branch[1..], Then(branch[0], inner, script.branch[0]), script.branch[1..]);
  }

  lemma EitherProduct(m: Vals, script: Script, last: Script)
    requires FrameBeneath(TWO_DEEP_LOW[0], m) && Finishes(EITHER, script)
    ensures Seen(XY, TWO_DEEP, Then(EITHER, [m], script), last).Holds()
  {
    hide TypeOf, ValOf, Then, Visible;
    EitherNames();
    EitherValues(m, script);
    var now := m[(if script.taken then "x" else "y") := m["a"]];
    OneFrame(now);
    ProductDepth();
    assert AtMost(Cipher(0), m["a"]) && AtMost(Cipher(2), m["x"]) && AtMost(Cipher(2), m["y"]);
    ProductValue(now, last.outside);
    ProductChains(now, last.outside);
  }

  lemma ProductValue(vals: Vals, outside: Outside)
    requires "x" in vals && "y" in vals && vals["x"].Cipher? && vals["y"].Cipher?
    ensures ValOf(XY, vals, outside) == Cipher(Max(vals["x"].levels, vals["y"].levels) + 1)
  {
    assert ValOf(X, vals, outside) == vals["x"] && ValOf(Y, vals, outside) == vals["y"];
  }

  lemma ProductChains(vals: Vals, outside: Outside)
    ensures DepthsIn(XY, TWO_DEEP) == [TypeOf(XY, TWO_DEEP).depth]
    ensures ChainsIn(XY, TWO_DEEP, vals, outside) == [ValOf(XY, vals, outside).Chain()]
  {
    hide ValOf;
    ProductDepth();
    assert DepthsIn(X, TWO_DEEP) == [] && DepthsIn(Y, TWO_DEEP) == [];
    assert ChainsIn(X, TWO_DEEP, vals, outside) == [] && ChainsIn(Y, TWO_DEEP, vals, outside) == [];
  }

  /** Every run replaces only one of x and y, so their product is always three deep, as the
      analyzer says. The least of x and the least of y are in different runs. */
  lemma MixedBranches()
    ensures EveryRunHolds([EITHER, Evaluate(XY)], TWO_DEEP, TWO_DEEP_LOW)
    ensures !FineAll([EITHER, Evaluate(XY)], TWO_DEEP, TWO_DEEP_LOW)
  {
    MixedRuns();
    hide EveryRunHolds;
    MixedNotFine();
  }

  lemma MixedRuns()
    ensures EveryRunHolds([EITHER, Evaluate(XY)], TWO_DEEP, TWO_DEEP_LOW)
  {
    hide Typed, AllHold, AllTypedVisits, Fine, FrameBeneath, Visits;
    var program := [EITHER, Evaluate(XY)];
    forall frames: Frames, scripts: seq<Script> |
      Beneath(TWO_DEEP_LOW, frames) && AllTypedVisits(VisitsAll(program, TWO_DEEP, frames, scripts))
      ensures AllHold(VisitsAll(program, TWO_DEEP, frames, scripts))
    {
      if |scripts| == 0 {
        NothingHolds();
      } else {
        MixedRun(frames, scripts);
      }
    }
  }

  lemma EvaluateVisits(e: Expr, scope: Scope, frames: Frames, scripts: seq<Script>)
    requires |scripts| > 0
    ensures VisitsAll([Evaluate(e)], scope, frames, scripts) == [Seen(e, scope, frames, scripts[0])]
  {
    assert [Evaluate(e)][1..] == [];
    assert VisitsAll([], scope, frames, scripts[1..]) == [];
  }

  lemma MixedRun(frames: Frames, scripts: seq<Script>)
    requires Beneath(TWO_DEEP_LOW, frames) && |scripts| > 0
    requires AllTypedVisits(VisitsAll([EITHER, Evaluate(XY)], TWO_DEEP, frames, scripts))
    ensures AllHold(VisitsAll([EITHER, Evaluate(XY)], TWO_DEEP, frames, scripts))
  {
    hide Typed, AllHold, AllTypedVisits, Fine, FrameBeneath, Then, Finishes, TypeOf, AfterAll;
    var program := [EITHER, Evaluate(XY)];
    var now := Visits(EITHER, TWO_DEEP, frames, scripts[0]);
    var next := Then(EITHER, frames, scripts[0]);
    assert program[0] == EITHER && program[1..] == [Evaluate(XY)] && [Evaluate(XY)][1..] == [];
    ProductDepth();
    var later := if Finishes(EITHER, scripts[0]) then VisitsAll([Evaluate(XY)], TWO_DEEP, next, scripts[1..]) else [];
    assert VisitsAll(program, TWO_DEEP, frames, scripts) == now + later;
    AppendTyped(now, later);
    EitherIsFine();
    NeverTooDeep(EITHER, TWO_DEEP, TWO_DEEP_LOW, frames, scripts[0]);
    NothingHolds();
    if Finishes(EITHER, scripts[0]) && |scripts| > 1 {
      var last := Seen(XY, TWO_DEEP, next, scripts[1]);
      EvaluateVisits(XY, TWO_DEEP, next, scripts[1..]);
      assert frames == [frames[0]] && FrameBeneath(TWO_DEEP_LOW[0], frames[0]);
      EitherProduct(frames[0], scripts[0], scripts[1]);
      OneVisit(last);
    }
    AppendHolds(now, later);
  }

  lemma MixedNotFine()
    ensures !FineAll([EITHER, Evaluate(XY)], TWO_DEEP, TWO_DEEP_LOW)
  {
    hide TypeOf, LowHolds, Fine;
    EitherNames();
    ProductDepth();
    TwoFine(EITHER, Evaluate(XY), TWO_DEEP, TWO_DEEP_LOW);
    var lowest: Vals := map["a" := Cipher(0), "x" := Cipher(0), "y" := Cipher(0)];
    EitherLow();
    OneFrame(lowest);
    assert Fine(Evaluate(XY), TWO_DEEP, [lowest]) == LowHolds(XY, TWO_DEEP, lowest) by {
      FineEvaluate(XY, TWO_DEEP, [lowest]);
    }
    LowProduct(lowest);
  }

  lemma FineEvaluate(e: Expr, scope: Scope, low: Frames)
    ensures Fine(Evaluate(e), scope, low) == LowHolds(e, scope, Visible(low))
  {}

  lemma LowProduct(low: Vals)
    requires low == map["a" := Cipher(0), "x" := Cipher(0), "y" := Cipher(0)]
    ensures !LowHolds(XY, TWO_DEEP, low)
  {
    hide EachAtMost;
    EitherNames();
    ProductDepth();
    assert LowOf(X, low) == Cipher(0) && LowOf(Y, low) == Cipher(0);
    assert LowOf(XY, low) == Cipher(1);
  }

  lemma EitherLow()
    ensures LowAfter(EITHER, TWO_DEEP_LOW) == [map["a" := Cipher(0), "x" := Cipher(0), "y" := Cipher(0)]]
  {
    EitherNames();
    var m := TWO_DEEP_LOW[0];
    assert TWO_DEEP_LOW == [m];
    LowBranch(m, "x");
    LowBranch(m, "y");
    assert Meet([m["x" := Cipher(0)]], [m["y" := Cipher(0)]])[0] == MeetFrame(m["x" := Cipher(0)], m["y" := Cipher(0)]);
    assert MeetFrame(m["x" := Cipher(0)], m["y" := Cipher(0)])
        == map["a" := Cipher(0), "x" := Cipher(0), "y" := Cipher(0)];
  }

  lemma LowBranch(m: Vals, x: string)
    requires "a" in m && x in m
    ensures Popped(LowAfterAll([Assign(Ident(x), A)], [m] + [map[]])) == [m[x := m["a"]]]
  {
    var inner := [m] + [map[]];
    OneFrame(m);
    VisiblePush([m], map[]);
    assert Visible(inner) == m;
    assert LowOf(A, m) == m["a"];
    SetOuter(m, x, m["a"]);
    assert [Assign(Ident(x), A)][1..] == [];
    assert LowAfterAll([], Set(inner, x, m["a"])) == Set(inner, x, m["a"]);
  }
}
