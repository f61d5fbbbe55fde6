/** Conditions on the text alone under which the analyzer is right: assignments that give a
    variable no less depth than it is held to have, and branches that leave none more. */
module DepthTame {
  import opened Depth
  import opened DepthRuns
  import opened DepthLows
  import opened DepthExact
  import opened ChebyshevDegree

  // ----- more at the start is more afterwards -----

  ghost predicate Grown(e: Expr, scope: Scope, low: Vals, more: Vals) {
    && AtMost(LowOf(e, low), LowOf(e, more))
    && EachAtMost(LowChainsIn(e, scope, low), LowChainsIn(e, scope, more))
  }

  lemma {:induction false} LowGrows(e: Expr, scope: Scope, low: Vals, more: Vals)
    requires Under(low, more)
    ensures Grown(e, scope, low, more)
    decreases e, 1
  {
    hide Fits, AtMost, BinaryVal, EachAtMost, Under, Least, Higher, InputVal, Val.Chain;
    match e
    case IntLit => ConstantGrows(e, scope, low, more);
    case FloatLit => ConstantGrows(e, scope, low, more);
    case Ident(x) => NameGrows(x, scope, low, more);
    case Binary(_, _, _) => BinaryGrown(e, scope, low, more);
    case Not(o) =>
      LowGrows(o, scope, low, more);
      PlainAtMost(Plain);
    case Negate(o) => LowGrows(o, scope, low, more);
    case Cast(o, target) =>
      LowGrows(o, scope, low, more);
      HigherGrows(Least(target), LowOf(o, low), LowOf(o, more));
    case Chebyshev(_, _, _, _, _) => ChebyshevGrown(e, scope, low, more);
    case Call(_, args, returned) =>
      AllGrow(args, scope, low, more);
      AtMostItself(Least(returned));
    case Opaque(_, parts) =>
      AllGrow(parts, scope, low, more);
      PlainAtMost(Plain);
  }

  lemma ConstantGrows(e: Expr, scope: Scope, low: Vals, more: Vals)
    requires e == IntLit || e == FloatLit
    ensures Grown(e, scope, low, more)
  {}

  lemma NameGrows(x: string, scope: Scope, low: Vals, more: Vals)
    requires Under(low, more)
    ensures Grown(Ident(x), scope, low, more)
  {}

  lemma AtMostItself(v: Val)
    ensures AtMost(v, v)
  {}

  lemma HigherGrows(t: Val, u: Val, v: Val)
    requires AtMost(u, v)
    ensures AtMost(Higher(t, u), Higher(t, v))
  {}

  lemma {:induction false} BinaryGrown(e: Expr, scope: Scope, low: Vals, more: Vals)
    requires e.Binary? && Under(low, more)
    ensures Grown(e, scope, low, more)
    decreases e, 0
  {
    hide AtMost, BinaryVal, EachAtMost, Under, Val.Chain;
    LowGrows(e.left, scope, low, more);
    LowGrows(e.right, scope, low, more);
    BinaryGrows(e.op, LowOf(e.left, low), LowOf(e.right, low), LowOf(e.left, more), LowOf(e.right, more));
    var a, b := LowChainsIn(e.left, scope, low), LowChainsIn(e.left, scope, more);
    AtMostAppend(a, b, LowChainsIn(e.right, scope, low), LowChainsIn(e.right, scope, more));
    a, b := a + LowChainsIn(e.right, scope, low), b + LowChainsIn(e.right, scope, more);
    if e.op == Times && TypeOf(e, scope).Encrypted() {
      OneAtMost(LowOf(e, low), LowOf(e, more));
      AtMostAppend(a, b, [LowOf(e, low).Chain()], [LowOf(e, more).Chain()]);
    } else {
      assert a + [] == a && b + [] == b;
    }
  }

  lemma {:induction false} ChebyshevGrown(e: Expr, scope: Scope, low: Vals, more: Vals)
    requires e.Chebyshev? && Under(low, more)
    ensures Grown(e, scope, low, more)
    decreases e, 0
  {
    hide AtMost, EachAtMost, Under, Val.Chain, InputVal, Least;
    AllGrow(e.args, scope, low, more);
    var a, b := LowChainsInAll(e.args, scope, low), LowChainsInAll(e.args, scope, more);
    if e.degree.Some? && e.degree.value > 0 {
      hide DepthForDegree;
      InputGrows(LowsOf(e.args, low), LowsOf(e.args, more), e.input, DepthForDegree(e.degree.value));
      OneAtMost(LowOf(e, low), LowOf(e, more));
      AtMostAppend(a, b, [LowOf(e, low).Chain()], [LowOf(e, more).Chain()]);
    } else {
      AtMostItself(Least(e.returned));
      assert a + [] == a && b + [] == b;
    }
  }

  lemma {:induction false} AllGrow(es: seq<Expr>, scope: Scope, low: Vals, more: Vals)
    requires Under(low, more)
    ensures forall i :: 0 <= i < |es| ==> AtMost(LowsOf(es, low)[i], LowsOf(es, more)[i])
    ensures EachAtMost(LowChainsInAll(es, scope, low), LowChainsInAll(es, scope, more))
    decreases es, 0
  {
    hide AtMost, EachAtMost, Under;
    if |es| == 0 {
      NothingAtMost();
    } else {
      LowGrows(es[0], scope, low, more);
      AllGrow(es[1..], scope, low, more);
      AtMostAppend(LowChainsIn(es[0], scope, low), LowChainsIn(es[0], scope, more),
                   LowChainsInAll(es[1..], scope, low), LowChainsInAll(es[1..], scope, more));
      forall i | 0 <= i < |es| ensures AtMost(LowsOf(es, low)[i], LowsOf(es, more)[i]) {
        if i > 0 {
          assert es[i] == es[1..][i - 1] && AtMost(LowsOf(es[1..], low)[i - 1], LowsOf(es[1..], more)[i - 1]);
        }
      }
    }
  }

  lemma HoldsGrows(e: Expr, scope: Scope, low: Frames, more: Frames)
    requires Beneath(low, more)
    ensures LowHolds(e, scope, Visible(low)) ==> LowHolds(e, scope, Visible(more))
    ensures AtMost(LowOf(e, Visible(low)), LowOf(e, Visible(more)))
  {
    hide Fits, AtMost, EachAtMost, Under, Beneath;
    BeneathVisible(low, more);
    LowGrows(e, scope, Visible(low), Visible(more));
    if LowHolds(e, scope, Visible(low)) {
      FitsAbove(TypeOf(e, scope), LowOf(e, Visible(low)), LowOf(e, Visible(more)));
      AtMostTrans(DepthsIn(e, scope), LowChainsIn(e, scope, Visible(low)), LowChainsIn(e, scope, Visible(more)));
    }
  }

  lemma MeetGrows(a: Frames, b: Frames, c: Frames, d: Frames)
    requires SameNames(a, b) && Beneath(a, c) && Beneath(b, d)
    ensures Beneath(Meet(a, b), Meet(c, d))
  {
    hide Beneath, Meet;
    MeetBeneath(a, b);
    BeneathTrans(Meet(a, b), a, c);
    BeneathTrans(Meet(a, b), b, d);
    MeetGreatest(c, d, Meet(a, b));
  }

  lemma {:induction false} AfterGrows(s: Stmt, low: Frames, more: Frames)
    requires |low| > 0 && Beneath(low, more)
    ensures Beneath(LowAfter(s, low), LowAfter(s, more))
    decreases s, 1, 0
  {
    hide Beneath, FrameBeneath, Bind, Define, Set, LowOf, AtMost, Visible, LowAfterAll, LowRounds, Meet, Popped;
    hide NamesKept, SameNames;
    match s
    case Let(x, e, form) =>
      HoldsGrows(e, map[], low, more);
      BeneathBind(low, more, x, LowOf(e, Visible(low)), LowOf(e, Visible(more)), form);
    case LetTuple(names, e) =>
      HoldsGrows(e, map[], low, more);
      ItemsBeneath(Named(names), LowOf(e, Visible(low)), LowOf(e, Visible(more)));
      BeneathDefine(low, more, Items(Named(names), LowOf(e, Visible(low))),
          Items(Named(names), LowOf(e, Visible(more))));
    case Assign(target, e) =>
      HoldsGrows(e, map[], low, more);
      if target.Ident? { BeneathSet(low, more, target.name, LowOf(e, Visible(low)), LowOf(e, Visible(more))); }
    case Evaluate(_) =>
    case Fixed(_, _, _, _) => AllAfterGrows(Live(s), low, more);
    case If(_, a, b) =>
      BranchGrows(a, low, more);
      BranchGrows(b, low, more);
      SameBranches(a, b, low);
      MeetGrows(Popped(LowAfterAll(a, low + [map[]])), Popped(LowAfterAll(b, low + [map[]])),
                Popped(LowAfterAll(a, more + [map[]])), Popped(LowAfterAll(b, more + [map[]])));
    case For(names, _, body) =>
      RoundsBeneath(names, body, low);
      RoundsStable(names, body, low);
      BeneathTrans(LowRounds(names, body, low), low, more);
      BelowRounds(names, body, LowRounds(names, body, low), more);
  }

  lemma {:induction false} BranchGrows(ss: seq<Stmt>, low: Frames, more: Frames)
    requires |low| > 0 && Beneath(low, more)
    ensures Beneath(Popped(LowAfterAll(ss, low + [map[]])), Popped(LowAfterAll(ss, more + [map[]])))
    decreases ss, 1, 0
  {
    hide Beneath, FrameBeneath, LowAfterAll, Popped;
    NothingBeneath();
    BeneathPush(low, more, map[], map[]);
    AllAfterGrows(ss, low + [map[]], more + [map[]]);
    BeneathPop(LowAfterAll(ss, low + [map[]]), LowAfterAll(ss, more + [map[]]));
  }

  lemma SameBranches(a: seq<Stmt>, b: seq<Stmt>, low: Frames)
    requires |low| > 0
    ensures SameNames(Popped(LowAfterAll(a, low + [map[]])), Popped(LowAfterAll(b, low + [map[]])))
  {
    hide LowAfterAll, Popped, NamesKept;
    LowNamesAll(a, low + [map[]]);
    LowNamesAll(b, low + [map[]]);
    NamesPopped(low, map[], LowAfterAll(a, low + [map[]]), DeclaresAll(a));
    NamesPopped(low, map[], LowAfterAll(b, low + [map[]]), DeclaresAll(b));
  }

  lemma {:induction false} AllAfterGrows(ss: seq<Stmt>, low: Frames, more: Frames)
    requires |low| > 0 && Beneath(low, more)
    ensures Beneath(LowAfterAll(ss, low), LowAfterAll(ss, more))
    decreases ss, 0, 0
  {
    hide Beneath, LowAfter;
    if |ss| > 0 {
      AfterGrows(ss[0], low, more);
      LowLength(ss[0], low);
      AllAfterGrows(ss[1..], LowAfter(ss[0], low), LowAfter(ss[0], more));
    }
  }

  /** Where another round lowers nothing, no number of rounds goes below. */
  lemma {:induction false} BelowRounds(names: seq<string>, body: seq<Stmt>, low: Frames, more: Frames)
    requires |low| > 0 && Stable(names, body, low) && Beneath(low, more)
    ensures Beneath(low, LowRounds(names, body, more))
    decreases body, 1, Weight(more)
  {
    hide Beneath, FrameBeneath, LowAfterAll, Popped, Meet, Items;
    var once := Popped(LowAfterAll(body, RoundStart(names, more)));
    var next := Meet(more, once);
    AtMostItself(Plain);
    ItemsBeneath(NameSet(names), Plain, Plain);
    BeneathPush(low, more, Items(NameSet(names), Plain), Items(NameSet(names), Plain));
    AllAfterGrows(body, RoundStart(names, low), RoundStart(names, more));
    BeneathPop(LowAfterAll(body, RoundStart(names, low)), LowAfterAll(body, RoundStart(names, more)));
    BeneathTrans(low, Popped(LowAfterAll(body, RoundStart(names, low))), once);
    MeetGreatest(more, once, low);
    if next != more {
      MeetBeneath(more, once);
      WeightFalls(next, more);
      BelowRounds(names, body, low, next);
    }
  }

  lemma {:induction false} FineGrows(s: Stmt, scope: Scope, low: Frames, more: Frames)
    requires |low| > 0 && Beneath(low, more) && Fine(s, scope, low)
    ensures Fine(s, scope, more)
    decreases s, 1
  {
    hide Beneath, FrameBeneath, LowHolds, LowOf, AtMost, Visible, FineAll, AfterAll, LowRounds, Items;
    match s
    case Let(_, e, _) => HoldsGrows(e, scope, low, more);
    case LetTuple(_, e) => HoldsGrows(e, scope, low, more);
    case Assign(target, e) =>
      HoldsGrows(target, scope, low, more);
      HoldsGrows(e, scope, low, more);
    case Evaluate(e) => HoldsGrows(e, scope, low, more);
    case Fixed(_, _, _, _) => AllFineGrow(Live(s), LiveScope(s, scope), low, more);
    case If(c, a, b) =>
      HoldsGrows(c, scope, low, more);
      NothingBeneath();
      BeneathPush(low, more, map[], map[]);
      AllFineGrow(a, scope, low + [map[]], more + [map[]]);
      AllFineGrow(b, AfterAll(a, scope), low + [map[]], more + [map[]]);
    case For(names, iterable, body) =>
      HoldsGrows(iterable, scope, low, more);
      AfterGrows(s, low, more);
      AtMostItself(Plain);
      ItemsBeneath(NameSet(names), Plain, Plain);
      BeneathPush(LowRounds(names, body, low), LowRounds(names, body, more),
                  Items(NameSet(names), Plain), Items(NameSet(names), Plain));
      AllFineGrow(body, Untyped(scope, NameSet(names)), RoundStart(names, LowRounds(names, body, low)),
                  RoundStart(names, LowRounds(names, body, more)));
  }

  lemma {:induction false} AllFineGrow(ss: seq<Stmt>, scope: Scope, low: Frames, more: Frames)
    requires |low| > 0 && Beneath(low, more) && FineAll(ss, scope, low)
    ensures FineAll(ss, scope, more)
    decreases ss, 0
  {
    hide Beneath, LowAfter, Fine, After;
    if |ss| > 0 {
      FineGrows(ss[0], scope, low, more);
      AfterGrows(ss[0], low, more);
      LowLength(ss[0], low);
      AllFineGrow(ss[1..], After(ss[0], scope), LowAfter(ss[0], low), LowAfter(ss[0], more));
    }
  }

  // ----- programs whose types say enough -----

  function LeastFor(scope: Scope, x: string): Val {
    if x in scope then Least(scope[x]) else Plain
  }

  /** What the visible names are held to be worth: the least their types say. */
  function Held(scope: Scope, visible: set<string>): Vals {
    map x | x in visible :: LeastFor(scope, x)
  }

  /** No type says more than what a name is held to be worth. */
  predicate Covers(scope: Scope, held: Vals) {
    forall x :: x in held && x in scope ==> Fits(scope[x], held[x])
  }

  /** What is assigned has no less depth than the name is held to have. */
  predicate NoLess(x: string, e: Expr, scope: Scope, held: Vals) {
    x in held ==> AtMost(held[x], Least(TypeOf(e, scope)))
  }

  /** What the names of the block are held to be worth after a statement. */
  function NextHeld(s: Stmt, scope: Scope, held: Vals): Vals
    decreases s, 1
  {
    match s
    case Let(x, e, form) => if form.Again? && x !in held then held else held[x := Least(TypeOf(e, scope))]
    case LetTuple(names, _) => held + Items(Named(names), Plain)
    case Fixed(_, holds, a, b) =>
      if holds then NextHeldAll(a, scope, held) else NextHeldAll(b, AfterAll(a, scope), held)
    case _ => held
  }

  function NextHeldAll(ss: seq<Stmt>, scope: Scope, held: Vals): Vals
    decreases ss, 0
  {
    if |ss| == 0 then held else NextHeldAll(ss[1..], After(ss[0], scope), NextHeld(ss[0], scope, held))
  }

  /** Every name an expression uses is visible. What is assigned, to a name or by a let to
      one of a block around, is no less than the name is held to have; and the types that
      a branch leaves behind for visible names say no more. The names in `local` are the
      block's own. */
  predicate Tame(s: Stmt, scope: Scope, held: Vals, local: set<string>)
    decreases s, 1
  {
    match s
    case Let(x, e, form) => NamesOf(e) <= held.Keys && (form.Again? && x !in local ==> NoLess(x, e, scope, held))
    case LetTuple(_, e) => NamesOf(e) <= held.Keys
    case Assign(target, e) =>
      NamesOf(target) <= held.Keys && NamesOf(e) <= held.Keys && (target.Ident? ==> NoLess(target.name, e, scope, held))
    case Evaluate(e) => NamesOf(e) <= held.Keys
    case If(c, a, b) =>
      && NamesOf(c) <= held.Keys && Covers(AfterAll(a, scope), held) && Covers(After(s, scope), held)
      && TameAll(a, scope, held, {}) && TameAll(b, AfterAll(a, scope), held, {})
    case Fixed(_, holds, a, b) =>
      && Covers(LiveScope(s, scope), held) && Covers(After(s, scope), NextHeld(s, scope, held))
      && if holds then TameAll(a, scope, held, local) else TameAll(b, AfterAll(a, scope), held, local)
    case For(names, iterable, body) =>
      && NamesOf(iterable) <= held.Keys
      && TameAll(body, Untyped(scope, NameSet(names)), held + Items(NameSet(names), Plain), NameSet(names))
  }

  predicate TameAll(ss: seq<Stmt>, scope: Scope, held: Vals, local: set<string>)
    decreases ss, 0
  {
    |ss| == 0 ||
    (&& Tame(ss[0], scope, held, local)
     && TameAll(ss[1..], After(ss[0], scope), NextHeld(ss[0], scope, held), local + Declares(ss[0])))
  }

  /** The values of that kind after a statement. */
  function NextTypical(s: Stmt, scope: Scope, low: Frames): Frames
    decreases s, 1
  {
    match s
    case Let(x, e, form) => Bind(low, x, Least(TypeOf(e, scope)), form)
    case LetTuple(names, _) => Define(low, Items(Named(names), Plain))
    case Fixed(_, holds, a, b) =>
      if holds then NextTypicalAll(a, scope, low) else NextTypicalAll(b, AfterAll(a, scope), low)
    case _ => low
  }

  function NextTypicalAll(ss: seq<Stmt>, scope: Scope, low: Frames): Frames
    decreases ss, 0
  {
    if |ss| == 0 then low else NextTypicalAll(ss[1..], After(ss[0], scope), NextTypical(ss[0], scope, low))
  }

  /** The innermost block's variables. */
  function LocalNames(low: Frames): set<string> {
    if |low| == 0 then {} else low[|low| - 1].Keys
  }

  lemma TypicalFits(e: Expr, scope: Scope, low: Frames)
    requires Covers(scope, Visible(low)) && NamesOf(e) <= Visible(low).Keys
    ensures LowHolds(e, scope, Visible(low))
    ensures AtMost(Least(TypeOf(e, scope)), LowOf(e, Visible(low)))
  {
    hide Fits, Least, EachAtMost, AtMost, LowOf, Visible, NamesOf;
    NamesEnough(e, scope, Visible(low));
    FitsTheLeast(TypeOf(e, scope), LowOf(e, Visible(low)));
  }

  lemma {:induction false} SetRaises(low: Frames, x: string, v: Val)
    requires x in Visible(low) ==> AtMost(Visible(low)[x], v)
    ensures Beneath(low, Set(low, x, v))
    decreases |low|
  {
    BeneathItself(low);
    if |low| > 0 {
      var n := |low| - 1;
      if x in low[n] {
        forall i | 0 <= i < |low| ensures FrameBeneath(low[i], Set(low, x, v)[i]) {}
      } else {
        SetRaises(low[..n], x, v);
        assert low == low[..n] + [low[n]] && FrameBeneath(low[n], low[n]);
        BeneathPush(low[..n], Set(low[..n], x, v), low[n], low[n]);
      }
    }
  }

  lemma PushTypical(scope: Scope, low: Frames, names: set<string>)
    requires Covers(scope, Visible(low))
    ensures Covers(Untyped(scope, names), Visible(low + [Items(names, Plain)]))
    ensures Visible(low + [Items(names, Plain)]) == Visible(low) + Items(names, Plain)
  {
    hide Visible;
    VisiblePush(low, Items(names, Plain));
  }

  lemma {:induction false} VisibleSet(frames: Frames, x: string, v: Val)
    ensures Visible(Set(frames, x, v)) == if x in Visible(frames) then Visible(frames)[x := v] else Visible(frames)
    decreases |frames|
  {
    if |frames| > 0 {
      var init, last := frames[..|frames| - 1], frames[|frames| - 1];
      if x in last {
        VisiblePush(init, last[x := v]);
      } else {
        VisibleSet(init, x, v);
        VisiblePush(Set(init, x, v), last);
      }
    }
  }

  /** From typical values the statement is fine, and what it leaves is above the typical
      values after it; of the blocks around nothing is lowered. */
  ghost predicate Goes(s: Stmt, scope: Scope, low: Frames) {
    var next := NextTypical(s, scope, low);
    && Fine(s, scope, low) && Beneath(next, LowAfter(s, low)) && Covers(After(s, scope), Visible(next))
    && Visible(next) == NextHeld(s, scope, Visible(low)) && |next| == |low|
    && Beneath(Popped(low), Popped(next)) && LocalNames(next) == LocalNames(low) + Declares(s)
  }

  ghost predicate GoesAll(ss: seq<Stmt>, scope: Scope, low: Frames) {
    var next := NextTypicalAll(ss, scope, low);
    && FineAll(ss, scope, low) && Beneath(next, LowAfterAll(ss, low)) && Covers(AfterAll(ss, scope), Visible(next))
    && Visible(next) == NextHeldAll(ss, scope, Visible(low)) && |next| == |low|
    && Beneath(Popped(low), Popped(next)) && LocalNames(next) == LocalNames(low) + DeclaresAll(ss)
  }

  /** Where a statement may start: at typical values that cover the scope. */
  ghost predicate Ready(scope: Scope, low: Frames) {
    |low| > 0 && Covers(scope, Visible(low))
  }

  lemma LetGoes(s: Stmt, scope: Scope, low: Frames)
    requires s.Let? && Ready(scope, low) && Tame(s, scope, Visible(low), LocalNames(low))
    ensures Goes(s, scope, low)
  {
    hide LowHolds, LowOf, TypeOf, AtMost, Least, Fits, NamesOf, Visible, Beneath, Bind;
    var t := Least(TypeOf(s.value, scope));
    TypicalFits(s.value, scope, low);
    LeastFits(TypeOf(s.value, scope));
    BeneathItself(low);
    BeneathBind(low, low, s.name, t, LowOf(s.value, Visible(low)), s.form);
    BindTypical(low, s.name, t, s.form);
  }

  lemma BindTypical(low: Frames, x: string, t: Val, form: Form)
    requires |low| > 0
    requires form.Again? && x !in LocalNames(low) && x in Visible(low) ==> AtMost(Visible(low)[x], t)
    ensures var next := Bind(low, x, t, form);
      && Visible(next) == (if form.Again? && x !in Visible(low) then Visible(low) else Visible(low)[x := t])
      && |next| == |low| && Beneath(Popped(low), Popped(next))
      && LocalNames(next) == LocalNames(low) + (if form.Again? then {} else {x})
  {
    hide AtMost, Beneath, Visible;
    BeneathItself(Popped(low));
    if form.Again? {
      VisibleSet(low, x, t);
      SetLocal(low, x, t);
      if x !in LocalNames(low) { SetRaises(Popped(low), x, t); }
    } else {
      VisibleDefine(low, map[x := t]);
      assert Visible(low) + map[x := t] == Visible(low)[x := t];
      assert (low[|low| - 1] + map[x := t]).Keys == low[|low| - 1].Keys + {x};
    }
  }

  lemma SetLocal(low: Frames, x: string, t: Val)
    requires |low| > 0
    ensures |Set(low, x, t)| == |low| && LocalNames(Set(low, x, t)) == LocalNames(low)
    ensures Popped(Set(low, x, t)) == if x in LocalNames(low) then Popped(low) else Set(Popped(low), x, t)
    ensures x !in LocalNames(low) ==>
        && (x in Visible(low) <==> x in Visible(Popped(low)))
        && (x in Visible(low) ==> Visible(Popped(low))[x] == Visible(low)[x])
  {
    SetNames(low, x, t);
    var init, last := low[..|low| - 1], low[|low| - 1];
    if x in last {
      assert Popped(init + [last[x := t]]) == init;
    } else {
      assert Popped(Set(init, x, t) + [last]) == Set(init, x, t);
    }
  }

  lemma TupleGoes(s: Stmt, scope: Scope, low: Frames)
    requires s.LetTuple? && Ready(scope, low) && Tame(s, scope, Visible(low), LocalNames(low))
    ensures Goes(s, scope, low)
  {
    hide LowHolds, LowOf, TypeOf, AtMost, Visible, Beneath;
    var items := Items(Named(s.names), Plain);
    TypicalFits(s.value, scope, low);
    PlainAtMost(LowOf(s.value, Visible(low)));
    ItemsBeneath(Named(s.names), Plain, LowOf(s.value, Visible(low)));
    BeneathItself(low);
    BeneathItself(Popped(low));
    BeneathDefine(low, low, items, Items(Named(s.names), LowOf(s.value, Visible(low))));
    VisibleDefine(low, items);
    assert (low[|low| - 1] + items).Keys == low[|low| - 1].Keys + Named(s.names);
  }

  lemma AssignGoes(s: Stmt, scope: Scope, low: Frames)
    requires s.Assign? && Ready(scope, low) && Tame(s, scope, Visible(low), LocalNames(low))
    ensures Goes(s, scope, low)
  {
    hide LowHolds, LowOf, TypeOf, AtMost, Least, Set, Fits, Visible, Beneath;
    TypicalFits(s.target, scope, low);
    TypicalFits(s.value, scope, low);
    BeneathItself(low);
    BeneathItself(Popped(low));
    if s.target.Ident? {
      var x, v := s.target.name, LowOf(s.value, Visible(low));
      if x in Visible(low) {
        AtMostThrough(Visible(low)[x], Least(TypeOf(s.value, scope)), v);
      }
      SetRaises(low, x, v);
    }
  }

  lemma AtMostThrough(u: Val, v: Val, w: Val)
    requires AtMost(u, v) && AtMost(v, w)
    ensures AtMost(u, w)
  {}

  lemma {:induction false} TameGoes(s: Stmt, scope: Scope, low: Frames)
    requires Ready(scope, low) && Tame(s, scope, Visible(low), LocalNames(low))
    ensures Goes(s, scope, low)
    decreases s, 1
  {
    hide Goes, Tame, Ready;
    match s
    case Let(_, _, _) => LetGoes(s, scope, low);
    case LetTuple(_, _) => TupleGoes(s, scope, low);
    case Assign(_, _) => AssignGoes(s, scope, low);
    case Evaluate(_) => EvaluateGoes(s, scope, low);
    case If(_, _, _) => IfGoes(s, scope, low);
    case Fixed(_, _, _, _) => FixedGoes(s, scope, low);
    case For(_, _, _) => ForGoes(s, scope, low);
  }

  lemma EvaluateGoes(s: Stmt, scope: Scope, low: Frames)
    requires s.Evaluate? && Ready(scope, low) && Tame(s, scope, Visible(low), LocalNames(low))
    ensures Goes(s, scope, low)
  {
    hide LowHolds, Visible;
    TypicalFits(s.e, scope, low);
    BeneathItself(low);
    BeneathItself(Popped(low));
  }

  lemma {:induction false} FixedGoes(s: Stmt, scope: Scope, low: Frames)
    requires s.Fixed? && Ready(scope, low) && Tame(s, scope, Visible(low), LocalNames(low))
    ensures Goes(s, scope, low)
    decreases s, 0
  {
    hide LowHolds, Visible, Beneath, FineAll, AfterAll, LowAfterAll;
    hide TameAll, Covers, Popped, NextTypicalAll, DeclaresAll;
    hide NextHeldAll, LocalNames;
    TameGoesAll(Live(s), LiveScope(s, scope), low);
  }

  lemma {:induction false} IfGoes(s: Stmt, scope: Scope, low: Frames)
    requires s.If? && Ready(scope, low) && Tame(s, scope, Visible(low), LocalNames(low))
    ensures Goes(s, scope, low)
    decreases s, 0
  {
    hide LowHolds, Visible, Beneath, FineAll, AfterAll, LowAfterAll, TameAll, Meet, NamesOf, Covers, Popped;
    var middle := AfterAll(s.then_, scope);
    TypicalFits(s.cond, scope, low);
    BranchGoes(s.then_, scope, low);
    BranchGoes(s.else_, middle, low);
    BeneathItself(Popped(low));
    MeetGreatest(Popped(LowAfterAll(s.then_, low + [map[]])), Popped(LowAfterAll(s.else_, low + [map[]])), low);
  }

  lemma {:induction false} BranchGoes(ss: seq<Stmt>, scope: Scope, low: Frames)
    requires Ready(scope, low) && TameAll(ss, scope, Visible(low), {})
    ensures FineAll(ss, scope, low + [map[]]) && Beneath(low, Popped(LowAfterAll(ss, low + [map[]])))
    decreases ss, 1
  {
    hide Beneath, FineAll, LowAfterAll, TameAll, AfterAll, NextTypicalAll, NextHeldAll, DeclaresAll, Covers;
    VisiblePush(low, map[]);
    assert Visible(low + [map[]]) == Visible(low) && LocalNames(low + [map[]]) == {};
    TameGoesAll(ss, scope, low + [map[]]);
    assert Popped(low + [map[]]) == low;
    PoppedAbove(low + [map[]], NextTypicalAll(ss, scope, low + [map[]]), LowAfterAll(ss, low + [map[]]));
  }

  lemma PoppedAbove(low: Frames, next: Frames, after: Frames)
    requires Beneath(Popped(low), Popped(next)) && Beneath(next, after)
    ensures Beneath(Popped(low), Popped(after))
  {
    hide Beneath;
    BeneathPop(next, after);
    BeneathTrans(Popped(low), Popped(next), Popped(after));
  }

  lemma {:induction false} ForGoes(s: Stmt, scope: Scope, low: Frames)
    requires s.For? && Ready(scope, low) && Tame(s, scope, Visible(low), LocalNames(low))
    ensures Goes(s, scope, low)
    decreases s, 0
  {
    hide LowHolds, Visible, FineAll, LowAfterAll, TameAll, NamesOf, Covers, Meet, Beneath, AfterAll, NextTypicalAll;
    hide NextHeldAll, DeclaresAll;
    var names := NameSet(s.names);
    TypicalFits(s.iterable, scope, low);
    PushTypical(scope, low, names);
    assert LocalNames(RoundStart(s.names, low)) == names;
    TameGoesAll(s.body, Untyped(scope, names), RoundStart(s.names, low));
    assert Popped(RoundStart(s.names, low)) == low;
    var once := Popped(LowAfterAll(s.body, RoundStart(s.names, low)));
    PoppedAbove(RoundStart(s.names, low), NextTypicalAll(s.body, Untyped(scope, names), RoundStart(s.names, low)),
                LowAfterAll(s.body, RoundStart(s.names, low)));
    MeetIsOne(low, once);
    assert LowAfter(s, low) == low;
    assert LocalNames(low) + {} == LocalNames(low);
    BeneathItself(low);
    BeneathItself(Popped(low));
  }

  lemma {:induction false} TameGoesAll(ss: seq<Stmt>, scope: Scope, low: Frames)
    requires Ready(scope, low) && TameAll(ss, scope, Visible(low), LocalNames(low))
    ensures GoesAll(ss, scope, low)
    decreases ss, 0
  {
    hide LowAfter, Fine, After, Tame, Beneath, Covers, Popped, NextTypical, NextHeld, Visible, LocalNames, Declares;
    if |ss| == 0 {
      BeneathItself(low);
      BeneathItself(Popped(low));
    } else {
      var s, next := ss[0], NextTypical(ss[0], scope, low);
      TameGoes(s, scope, low);
      TameGoesAll(ss[1..], After(s, scope), next);
      AllFineGrow(ss[1..], After(s, scope), next, LowAfter(s, low));
      AllAfterGrows(ss[1..], next, LowAfter(s, low));
      var last := NextTypicalAll(ss, scope, low);
      BeneathTrans(last, LowAfterAll(ss[1..], next), LowAfterAll(ss, low));
      BeneathTrans(Popped(low), Popped(next), Popped(last));
    }
  }

  // ----- tame programs are fine -----

  /** Every visible name's type fits its value. */
  predicate Below(scope: Scope, frames: Frames) {
    forall x :: x in Visible(frames) && x in scope ==> Fits(scope[x], Visible(frames)[x])
  }

  function FrameTypes(scope: Scope, last: Vals, hidden: set<string>): Vals {
    map x | x in last :: if x in hidden then Plain else LeastFor(scope, x)
  }

  /** The least values of the types; a variable that another one hides is worth nothing. */
  function TypesOnly(scope: Scope, frames: Frames, hidden: set<string>): Frames {
    if |frames| == 0 then []
    else
      var last := frames[|frames| - 1];
      TypesOnly(scope, frames[..|frames| - 1], hidden + last.Keys) + [FrameTypes(scope, last, hidden)]
  }

  lemma FrameTypesBeneath(scope: Scope, last: Vals, hidden: set<string>)
    requires forall x :: x in last && x in scope && x !in hidden ==> Fits(scope[x], last[x])
    ensures FrameBeneath(FrameTypes(scope, last, hidden), last)
  {
    hide Fits, AtMost, Least;
    forall x | x in last ensures AtMost(FrameTypes(scope, last, hidden)[x], last[x]) {
      PlainAtMost(last[x]);
      if x in scope { FitsTheLeast(scope[x], last[x]); }
    }
  }

  predicate VisibleFits(scope: Scope, frames: Frames, hidden: set<string>) {
    forall x :: x in Visible(frames) && x in scope && x !in hidden ==> Fits(scope[x], Visible(frames)[x])
  }

  predicate VisibleTypes(scope: Scope, low: Frames, hidden: set<string>) {
    forall x :: x in Visible(low) && x !in hidden ==> Visible(low)[x] == LeastFor(scope, x)
  }

  lemma FitsParts(scope: Scope, init: Frames, last: Vals, hidden: set<string>)
    requires VisibleFits(scope, init + [last], hidden)
    ensures VisibleFits(scope, init, hidden + last.Keys)
    ensures forall x :: x in last && x in scope && x !in hidden ==> Fits(scope[x], last[x])
  {
    hide Fits;
    VisiblePush(init, last);
    forall x | x in last && x in scope && x !in hidden ensures Fits(scope[x], last[x]) {
      assert Visible(init + [last])[x] == last[x];
    }
    forall x | x in Visible(init) && x in scope && x !in hidden + last.Keys ensures Fits(scope[x], Visible(init)[x]) {
      assert Visible(init + [last])[x] == Visible(init)[x];
    }
  }

  lemma TypesParts(scope: Scope, init: Frames, last: Vals, hidden: set<string>)
    requires VisibleTypes(scope, init, hidden + last.Keys)
    ensures VisibleTypes(scope, init + [FrameTypes(scope, last, hidden)], hidden)
  {
    hide Least;
    VisiblePush(init, FrameTypes(scope, last, hidden));
  }

  lemma {:induction false} TypesBeneath(scope: Scope, frames: Frames, hidden: set<string>)
    requires VisibleFits(scope, frames, hidden)
    ensures var low := TypesOnly(scope, frames, hidden);
      Beneath(low, frames) && |low| == |frames| && VisibleTypes(scope, low, hidden)
    decreases |frames|
  {
    hide VisibleFits, VisibleTypes, Visible, Beneath, FrameBeneath, FrameTypes;
    if |frames| > 0 {
      var init, last := frames[..|frames| - 1], frames[|frames| - 1];
      assert frames == init + [last];
      FitsParts(scope, init, last, hidden);
      TypesBeneath(scope, init, hidden + last.Keys);
      FrameTypesBeneath(scope, last, hidden);
      BeneathPush(TypesOnly(scope, init, hidden + last.Keys), init, FrameTypes(scope, last, hidden), last);
      TypesParts(scope, TypesOnly(scope, init, hidden + last.Keys), last, hidden);
    } else {
      NoTypes(scope, hidden);
    }
  }

  lemma NoTypes(scope: Scope, hidden: set<string>)
    ensures Beneath([], []) && VisibleTypes(scope, [], hidden)
  {}

  lemma {:induction false} TypesLength(scope: Scope, frames: Frames, hidden: set<string>)
    ensures |TypesOnly(scope, frames, hidden)| == |frames|
    decreases |frames|
  {
    if |frames| > 0 { TypesLength(scope, frames[..|frames| - 1], hidden + frames[|frames| - 1].Keys); }
  }

  lemma TypesHeld(scope: Scope, low: Frames)
    requires VisibleTypes(scope, low, {})
    ensures Visible(low) == Held(scope, Visible(low).Keys) && Covers(scope, Visible(low))
  {
    hide Fits, Least, Visible;
    forall x | x in Visible(low) && x in scope ensures Fits(scope[x], Visible(low)[x]) {
      LeastFits(scope[x]);
    }
  }

  /** A tame program is fine from the values its types say, and from all above. */
  lemma TameIsFine(ss: seq<Stmt>, scope: Scope, frames: Frames)
    requires |frames| > 0 && Below(scope, frames)
    requires TameAll(ss, scope, Held(scope, Visible(frames).Keys), LocalNames(frames))
    ensures FineAll(ss, scope, TypesOnly(scope, frames, {})) && Beneath(TypesOnly(scope, frames, {}), frames)
  {
    hide Fits, TameAll, FineAll, TypesOnly, AtMost, Visible, Covers, Held;
    TypesBeneath(scope, frames, {});
    BeneathVisible(TypesOnly(scope, frames, {}), frames);
    TypesHeld(scope, TypesOnly(scope, frames, {}));
    TameGoesAll(ss, scope, TypesOnly(scope, frames, {}));
  }

  lemma TameNeverTooDeep(ss: seq<Stmt>, scope: Scope, frames: Frames, scripts: seq<Script>)
    requires |frames| > 0 && Below(scope, frames)
    requires TameAll(ss, scope, Held(scope, Visible(frames).Keys), LocalNames(frames))
    requires AllTypedVisits(VisitsAll(ss, scope, frames, scripts))
    ensures AllHold(VisitsAll(ss, scope, frames, scripts))
  {
    hide TameAll, FineAll, AllTypedVisits, AllHold, VisitsAll, Beneath;
    TameIsFine(ss, scope, frames);
    TypesLength(scope, frames, {});
    AllNeverTooDeep(ss, scope, TypesOnly(scope, frames, {}), frames, scripts);
  }
}
