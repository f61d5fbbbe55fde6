/** Whole programs of which no run goes over the maximum unreported: a condition on the
    text that keeps every type at least as deep as what the variable is worth. */
module DepthGuards {
  import opened Analyzer
  import opened Depth
  import opened DepthRuns
  import opened DepthReports
  import opened DepthCovers
  import DepthEmitted

  /** One type says at least as much as another. */
  predicate NoMore(t: Ty, u: Ty) {
    t.depth <= u.depth && (t.kind == Enc ==> u.kind == Enc)
  }

  predicate ScopeGrows(a: Scope, b: Scope) {
    a.Keys <= b.Keys && forall x :: x in a ==> NoMore(a[x], b[x])
  }

  /** Every variable of every block is worth no more than its name's type says. */
  predicate FramesCovered(scope: Scope, frames: Frames) {
    forall i, x :: 0 <= i < |frames| && x in frames[i] ==> x in scope && Covers(scope[x], frames[i][x])
  }

  // ----- the condition -----

  /** None of the names has an encrypted type, or a depth. */
  predicate AllClear(names: set<string>, scope: Scope) {
    forall x :: x in names && x in scope ==> NoMore(scope[x], UNKNOWN)
  }

  /** The names there were have no more afterwards. */
  predicate Settled(before: Scope, after: Scope) {
    forall x :: x in before && x in after ==> NoMore(after[x], before[x])
  }

  /** A let of a name in use, an assignment and a loop's or a tuple's names take the type to
      nothing less; a loop's body takes the types around it to nothing more. */
  predicate Guarded(s: Stmt, scope: Scope)
    decreases s, 1
  {
    match s
    case Let(x, e, _) => Deeper(e, scope) && (x in scope ==> NoMore(scope[x], TypeOf(e, scope)))
    case LetTuple(names, e) => Deeper(e, scope) && AllClear(Named(names), scope)
    case Assign(target, e) =>
      && Deeper(target, scope) && Deeper(e, scope)
      && (target.Ident? && target.name in scope ==> NoMore(TypeOf(e, scope), scope[target.name]))
    case Evaluate(e) => Deeper(e, scope)
    case If(c, a, b) => Deeper(c, scope) && GuardedAll(a, scope) && GuardedAll(b, AfterAll(a, scope))
    case Fixed(c, _, a, b) => Deeper(c, scope) && GuardedAll(a, scope) && GuardedAll(b, AfterAll(a, scope))
    case For(names, iterable, body) =>
      var inner := Untyped(scope, NameSet(names));
      && Deeper(iterable, scope) && AllClear(NameSet(names), scope)
      && GuardedAll(body, inner) && Settled(inner, AfterAll(body, inner))
  }

  predicate GuardedAll(ss: seq<Stmt>, scope: Scope)
    decreases ss, 0
  {
    |ss| == 0 || (Guarded(ss[0], scope) && GuardedAll(ss[1..], After(ss[0], scope)))
  }

  /** Calls and casts are told right, and what is taken apart or gone through is in the clear. */
  ghost predicate Clear(s: Stmt, frames: Frames, script: Script)
    decreases s, 1, 0
  {
    match s
    case LetTuple(_, e) => Values(e, frames, script).Plain?
    case If(_, a, b) => ClearAll(if script.taken then a else b, frames + [map[]], script.branch)
    case Fixed(_, holds, a, b) => ClearAll(if holds then a else b, frames, script.branch)
    case For(names, _, body) => ClearRounds(names, body, frames, script.rounds)
    case _ => true
  }

  ghost predicate ClearAll(ss: seq<Stmt>, frames: Frames, scripts: seq<Script>)
    decreases ss, 0, 0
  {
    |ss| == 0 || |scripts| == 0 ||
    (Clear(ss[0], frames, scripts[0]) && ClearAll(ss[1..], Then(ss[0], frames, scripts[0]), scripts[1..]))
  }

  ghost predicate ClearRounds(names: seq<string>, body: seq<Stmt>, frames: Frames, rounds: seq<Round>)
    decreases body, 1, |rounds|
  {
    |rounds| == 0 ||
    (var inner := frames + [Items(NameSet(names), rounds[0].item)];
     && rounds[0].item.Plain? && ClearAll(body, inner, rounds[0].scripts)
     && ClearRounds(names, body, Popped(ThenAll(body, inner, rounds[0].scripts)), rounds[1..]))
  }

  ghost predicate ToldRight(v: Visit) {
    Told(v.e, v.vals, v.outside, COVERED)
  }

  ghost predicate AllToldRight(vs: seq<Visit>) {
    forall i :: 0 <= i < |vs| ==> ToldRight(vs[i])
  }

  ghost predicate IsAbove(v: Visit) {
    Capped(v.e, v.scope, v.vals, v.outside)
  }

  ghost predicate AllAbove(vs: seq<Visit>) {
    forall i :: 0 <= i < |vs| ==> IsAbove(vs[i])
  }

  lemma ToldAppend(a: seq<Visit>, b: seq<Visit>)
    requires AllToldRight(a + b)
    ensures AllToldRight(a) && AllToldRight(b)
  {
    hide ToldRight;
    forall i | 0 <= i < |a| ensures ToldRight(a[i]) { assert a[i] == (a + b)[i]; }
    forall i | 0 <= i < |b| ensures ToldRight(b[i]) { assert b[i] == (a + b)[|a| + i]; }
  }

  lemma AboveAppend(a: seq<Visit>, b: seq<Visit>)
    requires AllAbove(a) && AllAbove(b)
    ensures AllAbove(a + b)
  {
    hide IsAbove;
  }

  lemma OneAbove(v: Visit)
    ensures AllAbove([v]) <==> IsAbove(v)
    ensures AllToldRight([v]) <==> ToldRight(v)
  {
    hide IsAbove, ToldRight;
    assert [v][0] == v;
  }

  // ----- types only grow -----

  lemma NoMoreTrans(t: Ty, u: Ty, v: Ty)
    requires NoMore(t, u) && NoMore(u, v)
    ensures NoMore(t, v)
  {}

  lemma CoversMore(t: Ty, u: Ty, v: Val)
    requires NoMore(t, u) && Covers(t, v)
    ensures Covers(u, v)
  {}

  lemma GrowsTrans(a: Scope, b: Scope, c: Scope)
    requires ScopeGrows(a, b) && ScopeGrows(b, c)
    ensures ScopeGrows(a, c)
  {
    hide NoMore;
    forall x | x in a ensures NoMore(a[x], c[x]) { NoMoreTrans(a[x], b[x], c[x]); }
  }

  lemma CoveredMore(a: Scope, b: Scope, frames: Frames)
    requires ScopeGrows(a, b) && FramesCovered(a, frames)
    ensures FramesCovered(b, frames)
  {
    hide NoMore, Covers;
    forall i, x | 0 <= i < |frames| && x in frames[i] ensures x in b && Covers(b[x], frames[i][x]) {
      CoversMore(a[x], b[x], frames[i][x]);
    }
  }

  lemma NoLess(t: Ty)
    ensures NoMore(t, t)
  {}

  lemma {:induction false} GrowsOver(s: Stmt, scope: Scope)
    requires Guarded(s, scope)
    ensures ScopeGrows(scope, After(s, scope))
    decreases s, 1
  {
    hide Deeper, TypeOf, GuardedAll, AfterAll;
    match s
    case Let(x, e, _) =>
      forall y | y in scope ensures NoMore(scope[y], After(s, scope)[y]) {
        if y != x { NoLess(scope[y]); }
      }
    case If(_, a, b) =>
      GrowsOverAll(a, scope);
      GrowsOverAll(b, AfterAll(a, scope));
      GrowsTrans(scope, AfterAll(a, scope), AfterAll(b, AfterAll(a, scope)));
    case Fixed(_, _, a, b) =>
      GrowsOverAll(a, scope);
      GrowsOverAll(b, AfterAll(a, scope));
      GrowsTrans(scope, AfterAll(a, scope), AfterAll(b, AfterAll(a, scope)));
    case _ =>
  }

  lemma BothGrow(a: seq<Stmt>, b: seq<Stmt>, scope: Scope)
    requires GuardedAll(a, scope) && GuardedAll(b, AfterAll(a, scope))
    ensures ScopeGrows(scope, AfterAll(a, scope)) && ScopeGrows(scope, AfterAll(b, AfterAll(a, scope)))
    ensures ScopeGrows(AfterAll(a, scope), AfterAll(b, AfterAll(a, scope)))
  {
    hide ScopeGrows, GuardedAll, AfterAll;
    GrowsOverAll(a, scope);
    GrowsOverAll(b, AfterAll(a, scope));
    GrowsTrans(scope, AfterAll(a, scope), AfterAll(b, AfterAll(a, scope)));
  }

  lemma {:induction false} GrowsOverAll(ss: seq<Stmt>, scope: Scope)
    requires GuardedAll(ss, scope)
    ensures ScopeGrows(scope, AfterAll(ss, scope))
    decreases ss, 0
  {
    hide NoMore, Guarded, After;
    if |ss| > 0 {
      GrowsOver(ss[0], scope);
      GrowsOverAll(ss[1..], After(ss[0], scope));
      GrowsTrans(scope, After(ss[0], scope), AfterAll(ss[1..], After(ss[0], scope)));
    } else {
      forall x | x in scope ensures NoMore(scope[x], scope[x]) { NoLess(scope[x]); }
    }
  }

  // ----- values stay covered -----

  lemma {:induction false} VisibleCovered(scope: Scope, frames: Frames, x: string)
    requires FramesCovered(scope, frames)
    ensures Covers(TyAt(x, scope), ValAt(x, Visible(frames)))
    decreases |frames|
  {
    if |frames| > 0 {
      var n := |frames| - 1;
      FirstCovered(scope, frames);
      VisibleCovered(scope, frames[..n], x);
    }
  }

  lemma FirstCovered(scope: Scope, frames: Frames)
    requires FramesCovered(scope, frames) && |frames| > 0
    ensures FramesCovered(scope, frames[..|frames| - 1])
  {
    hide Covers;
    var init := frames[..|frames| - 1];
    forall i, x | 0 <= i < |init| && x in init[i] ensures x in scope && Covers(scope[x], init[i][x]) {
      assert frames[i] == init[i];
    }
  }

  /** Whatever is evaluated has no chain over its depth. */
  lemma SeenCovered(e: Expr, scope: Scope, frames: Frames, script: Script)
    requires FramesCovered(scope, frames) && Deeper(e, scope) && ToldRight(Seen(e, scope, frames, script))
    ensures IsAbove(Seen(e, scope, frames, script)) && Covers(TypeOf(e, scope), Values(e, frames, script))
  {
    hide Deeper, Told, Covers, FramesCovered, NamesOf, TyAt, ValAt, TypeOf, ValOf, Visible;
    forall x | x in NamesOf(e) ensures Covers(TyAt(x, scope), ValAt(x, Visible(frames))) {
      VisibleCovered(scope, frames, x);
    }
    ExprCovered(e, scope, Visible(frames), script.outside);
  }

  lemma {:induction false} SetCovered(scope: Scope, frames: Frames, x: string, v: Val)
    requires FramesCovered(scope, frames) && (x in scope ==> Covers(scope[x], v))
    ensures FramesCovered(scope, Set(frames, x, v))
    decreases |frames|
  {
    hide Covers;
    if |frames| > 0 {
      var n := |frames| - 1;
      FirstCovered(scope, frames);
      if x !in frames[n] { SetCovered(scope, frames[..n], x, v); }
      var now := Set(frames, x, v);
      forall i, y | 0 <= i < |now| && y in now[i] ensures y in scope && Covers(scope[y], now[i][y]) {
        if x in frames[n] && i < n { assert now[i] == frames[i]; }
        if x !in frames[n] && i == |now| - 1 { SetLast(frames, x, v); }
      }
    }
  }

  lemma SetLast(frames: Frames, x: string, v: Val)
    requires |frames| > 0 && x !in frames[|frames| - 1]
    ensures |Set(frames, x, v)| > 0 && Set(frames, x, v)[|Set(frames, x, v)| - 1] == frames[|frames| - 1]
  {}

  ghost predicate MapCovered(scope: Scope, more: Vals) {
    forall x :: x in more ==> x in scope && Covers(scope[x], more[x])
  }

  lemma DefineCovered(scope: Scope, frames: Frames, more: Vals)
    requires FramesCovered(scope, frames) && MapCovered(scope, more)
    ensures FramesCovered(scope, Define(frames, more)) && FramesCovered(scope, frames + [more])
  {
    hide Covers;
  }

  lemma PoppedCovered(scope: Scope, frames: Frames)
    requires FramesCovered(scope, frames)
    ensures FramesCovered(scope, Popped(frames))
  {
    hide Covers;
    if |frames| > 0 { FirstCovered(scope, frames); }
  }

  /** After a statement that runs to its end, the variables are covered by the new types. */
  ghost predicate Goes(s: Stmt, scope: Scope, frames: Frames, script: Script) {
    && AllAbove(Visits(s, scope, frames, script))
    && (Finishes(s, script) ==> FramesCovered(After(s, scope), Then(s, frames, script)))
  }

  lemma {:induction false} StatementGoes(s: Stmt, scope: Scope, frames: Frames, script: Script)
    requires Guarded(s, scope) && FramesCovered(scope, frames) && Clear(s, frames, script)
    requires AllToldRight(Visits(s, scope, frames, script))
    ensures Goes(s, scope, frames, script)
    decreases s, 1, 0
  {
    hide FramesCovered, ToldRight, IsAbove, GuardedAll, ClearAll, ClearRounds, VisitsAll, VisitsRounds, ThenAll;
    hide AfterAll, FinishesAll, ThenRounds, Popped, Set, Define, Deeper, TypeOf, Values, Covers, Untyped, NoMore;
    match s
    case Let(_, _, _) => LetGoes(s, scope, frames, script);
    case LetTuple(_, _) => TupleGoes(s, scope, frames, script);
    case Assign(_, _) => AssignGoes(s, scope, frames, script);
    case Evaluate(e) =>
      OneAbove(Seen(e, scope, frames, script));
      SeenCovered(e, scope, frames, script);
    case If(_, _, _) => IfGoes(s, scope, frames, script);
    case Fixed(_, _, _, _) => FixedGoes(s, scope, frames, script);
    case For(_, _, _) => ForGoes(s, scope, frames, script);
  }

  lemma LetGoes(s: Stmt, scope: Scope, frames: Frames, script: Script)
    requires s.Let? && Guarded(s, scope) && FramesCovered(scope, frames)
    requires AllToldRight(Visits(s, scope, frames, script))
    ensures Goes(s, scope, frames, script)
  {
    GrowsOver(s, scope);
    hide FramesCovered, ToldRight, IsAbove, Set, Define, Deeper, TypeOf, Values, Covers, ScopeGrows, NoMore;
    var v := Values(s.value, frames, script);
    OneAbove(Seen(s.value, scope, frames, script));
    SeenCovered(s.value, scope, frames, script);
    var after := After(s, scope);
    CoveredMore(scope, after, frames);
    SetCovered(after, frames, s.name, v);
    assert MapCovered(after, map[s.name := v]);
    DefineCovered(after, frames, map[s.name := v]);
  }

  lemma TupleGoes(s: Stmt, scope: Scope, frames: Frames, script: Script)
    requires s.LetTuple? && Guarded(s, scope) && FramesCovered(scope, frames) && Clear(s, frames, script)
    requires AllToldRight(Visits(s, scope, frames, script))
    ensures Goes(s, scope, frames, script)
  {
    GrowsOver(s, scope);
    hide FramesCovered, ToldRight, IsAbove, Define, Deeper, Values, ScopeGrows, NoMore;
    OneAbove(Seen(s.value, scope, frames, script));
    SeenCovered(s.value, scope, frames, script);
    var after := After(s, scope);
    CoveredMore(scope, after, frames);
    var items := Items(Named(s.names), Values(s.value, frames, script));
    assert MapCovered(after, items);
    DefineCovered(after, frames, items);
  }

  lemma AssignGoes(s: Stmt, scope: Scope, frames: Frames, script: Script)
    requires s.Assign? && Guarded(s, scope) && FramesCovered(scope, frames)
    requires AllToldRight(Visits(s, scope, frames, script))
    ensures Goes(s, scope, frames, script)
  {
    hide FramesCovered, ToldRight, IsAbove, Set, Deeper, TypeOf, Values, Covers, NoMore;
    var t, e := Seen(s.target, scope, frames, script), Seen(s.value, scope, frames, script);
    assert [t, e] == [t] + [e];
    ToldAppend([t], [e]);
    OneAbove(t);
    OneAbove(e);
    SeenCovered(s.target, scope, frames, script);
    SeenCovered(s.value, scope, frames, script);
    AboveAppend([t], [e]);
    if s.target.Ident? {
      var x := s.target.name;
      if x in scope { CoversMore(TypeOf(s.value, scope), scope[x], Values(s.value, frames, script)); }
      SetCovered(scope, frames, x, Values(s.value, frames, script));
    }
  }

  lemma {:induction false} IfGoes(s: Stmt, scope: Scope, frames: Frames, script: Script)
    requires s.If? && Guarded(s, scope) && FramesCovered(scope, frames) && Clear(s, frames, script)
    requires AllToldRight(Visits(s, scope, frames, script))
    ensures Goes(s, scope, frames, script)
    decreases s, 0, 0
  {
    BothGrow(s.then_, s.else_, scope);
    hide FramesCovered, ToldRight, IsAbove, GuardedAll, ClearAll, VisitsAll, ThenAll, AfterAll, FinishesAll, Popped;
    hide Deeper, ScopeGrows, AllAbove, AllToldRight;
    var here := Seen(s.cond, scope, frames, script);
    var middle, after := AfterAll(s.then_, scope), After(s, scope);
    var branch := if script.taken then s.then_ else s.else_;
    var start := if script.taken then scope else middle;
    var inner := frames + [map[]];
    ToldAppend([here], VisitsAll(branch, start, inner, script.branch));
    OneAbove(here);
    SeenCovered(s.cond, scope, frames, script);
    assert MapCovered(scope, map[]);
    DefineCovered(scope, frames, map[]);
    if !script.taken { CoveredMore(scope, middle, inner); }
    BlockGoes(branch, start, inner, script.branch);
    AboveAppend([here], VisitsAll(branch, start, inner, script.branch));
    if Finishes(s, script) {
      if script.taken { CoveredMore(middle, after, ThenAll(branch, inner, script.branch)); }
      PoppedCovered(after, ThenAll(branch, inner, script.branch));
    }
  }

  lemma {:induction false} FixedGoes(s: Stmt, scope: Scope, frames: Frames, script: Script)
    requires s.Fixed? && Guarded(s, scope) && FramesCovered(scope, frames) && Clear(s, frames, script)
    requires AllToldRight(Visits(s, scope, frames, script))
    ensures Goes(s, scope, frames, script)
    decreases s, 0, 0
  {
    BothGrow(s.then_, s.else_, scope);
    hide FramesCovered, ToldRight, IsAbove, GuardedAll, ClearAll, VisitsAll, ThenAll, AfterAll, FinishesAll, Popped;
    hide Deeper, ScopeGrows, AllAbove, AllToldRight;
    var middle, after := AfterAll(s.then_, scope), After(s, scope);
    if s.holds {
      BlockGoes(s.then_, scope, frames, script.branch);
      if Finishes(s, script) { CoveredMore(middle, after, ThenAll(s.then_, frames, script.branch)); }
    } else {
      CoveredMore(scope, middle, frames);
      BlockGoes(s.else_, middle, frames, script.branch);
    }
  }

  lemma {:induction false} ForGoes(s: Stmt, scope: Scope, frames: Frames, script: Script)
    requires s.For? && Guarded(s, scope) && FramesCovered(scope, frames) && Clear(s, frames, script)
    requires AllToldRight(Visits(s, scope, frames, script))
    ensures Goes(s, scope, frames, script)
    decreases s, 0, 0
  {
    hide FramesCovered, ToldRight, IsAbove, ClearRounds, VisitsRounds, ThenRounds, FinishesAll, Deeper;
    hide AllAbove, AllToldRight;
    var here, inner := Seen(s.iterable, scope, frames, script), Untyped(scope, NameSet(s.names));
    ToldAppend([here], VisitsRounds(s.names, s.body, inner, frames, script.rounds));
    OneAbove(here);
    SeenCovered(s.iterable, scope, frames, script);
    LoopScope(s.names, scope);
    CoveredMore(scope, inner, frames);
    RoundsGo(s.names, s.body, scope, frames, script.rounds);
    AboveAppend([here], VisitsRounds(s.names, s.body, inner, frames, script.rounds));
  }

  lemma LoopScope(names: seq<string>, scope: Scope)
    requires AllClear(NameSet(names), scope)
    ensures ScopeGrows(scope, Untyped(scope, NameSet(names)))
  {}

  lemma {:induction false} RoundsGo(names: seq<string>, body: seq<Stmt>, scope: Scope, frames: Frames,
          rounds: seq<Round>)
    requires AllClear(NameSet(names), scope) && FramesCovered(scope, frames)
    requires GuardedAll(body, Untyped(scope, NameSet(names)))
    requires Settled(Untyped(scope, NameSet(names)), AfterAll(body, Untyped(scope, NameSet(names))))
    requires ClearRounds(names, body, frames, rounds)
    requires AllToldRight(VisitsRounds(names, body, Untyped(scope, NameSet(names)), frames, rounds))
    ensures AllAbove(VisitsRounds(names, body, Untyped(scope, NameSet(names)), frames, rounds))
    ensures (forall i :: 0 <= i < |rounds| ==> FinishesAll(body, rounds[i].scripts)) ==>
      FramesCovered(scope, ThenRounds(names, body, frames, rounds))
    decreases body, 1, |rounds|
  {
    hide FramesCovered, ToldRight, IsAbove, GuardedAll, ClearAll, VisitsAll, ThenAll, AfterAll, FinishesAll, Popped;
    hide AllClear, Settled, Untyped, Items;
    if |rounds| > 0 {
      var start, inner := Untyped(scope, NameSet(names)), frames + [Items(NameSet(names), rounds[0].item)];
      var now := Popped(ThenAll(body, inner, rounds[0].scripts));
      ToldAppend(VisitsAll(body, start, inner, rounds[0].scripts),
                 if FinishesAll(body, rounds[0].scripts) then VisitsRounds(names, body, start, now, rounds[1..])
                 else []);
      RoundCovered(names, scope, frames, rounds[0].item);
      BlockGoes(body, start, inner, rounds[0].scripts);
      if FinishesAll(body, rounds[0].scripts) {
        RoundEnds(names, body, scope, frames, rounds[0]);
        RoundsGo(names, body, scope, now, rounds[1..]);
        AboveAppend(VisitsAll(body, start, inner, rounds[0].scripts),
                    VisitsRounds(names, body, start, now, rounds[1..]));
      } else {
        var here := VisitsAll(body, start, inner, rounds[0].scripts);
        assert here + [] == here;
      }
    }
  }

  lemma RoundCovered(names: seq<string>, scope: Scope, frames: Frames, item: Val)
    requires AllClear(NameSet(names), scope) && FramesCovered(scope, frames) && item.Plain?
    ensures FramesCovered(Untyped(scope, NameSet(names)), frames + [Items(NameSet(names), item)])
  {
    LoopScope(names, scope);
    CoveredMore(scope, Untyped(scope, NameSet(names)), frames);
    hide FramesCovered;
    assert MapCovered(Untyped(scope, NameSet(names)), Items(NameSet(names), item));
    DefineCovered(Untyped(scope, NameSet(names)), frames, Items(NameSet(names), item));
  }

  /** After a round the variables around the loop are covered by the types around it. */
  lemma RoundEnds(names: seq<string>, body: seq<Stmt>, scope: Scope, frames: Frames, round: Round)
    requires FramesCovered(scope, frames)
    requires Settled(Untyped(scope, NameSet(names)), AfterAll(body, Untyped(scope, NameSet(names))))
    requires FramesCovered(AfterAll(body, Untyped(scope, NameSet(names))),
      ThenAll(body, frames + [Items(NameSet(names), round.item)], round.scripts))
    ensures FramesCovered(scope, Popped(ThenAll(body, frames + [Items(NameSet(names), round.item)], round.scripts)))
  {
    hide AfterAll, ThenAll, Covers, NoMore;
    var start, inner := Untyped(scope, NameSet(names)), frames + [Items(NameSet(names), round.item)];
    var all := ThenAll(body, inner, round.scripts);
    AllKeepNames(body, inner, round.scripts);
    var now := Popped(all);
    forall i, x | 0 <= i < |now| && x in now[i] ensures x in scope && Covers(scope[x], now[i][x]) {
      assert now[i] == all[i] && inner[i] == frames[i];
      assert all[i].Keys == inner[i].Keys && x in frames[i];
      assert x in AfterAll(body, start) && Covers(AfterAll(body, start)[x], now[i][x]);
      CoversMore(AfterAll(body, start)[x], start[x], now[i][x]);
      if x in names { CoversMore(UNKNOWN, scope[x], now[i][x]) by { UnknownNoMore(scope[x]); } }
    }
  }

  lemma UnknownNoMore(t: Ty)
    ensures NoMore(UNKNOWN, t)
  {}

  // ----- the blocks around keep their variables -----

  predicate OthersKept(a: Frames, b: Frames) {
    |a| == |b| && forall i :: 0 <= i < |a| - 1 ==> a[i].Keys == b[i].Keys
  }

  lemma {:induction false} SetKeeps(frames: Frames, x: string, v: Val)
    ensures |Set(frames, x, v)| == |frames|
    ensures forall i :: 0 <= i < |frames| ==> Set(frames, x, v)[i].Keys == frames[i].Keys
    decreases |frames|
  {
    if |frames| > 0 {
      var n := |frames| - 1;
      if x !in frames[n] { SetKeeps(frames[..n], x, v); }
    }
  }

  lemma {:induction false} KeepsNames(s: Stmt, frames: Frames, script: Script)
    requires |frames| > 0
    ensures OthersKept(frames, Then(s, frames, script))
    ensures s.If? || s.For? ==> SameKeys(frames, Then(s, frames, script))
    decreases s, 1, 0
  {
    hide Values;
    match s
    case Let(x, e, _) => SetKeeps(frames, x, Values(e, frames, script));
    case Assign(target, e) => if target.Ident? { SetKeeps(frames, target.name, Values(e, frames, script)); }
    case If(_, a, b) =>
      var branch := if script.taken then a else b;
      AllKeepNames(branch, frames + [map[]], script.branch);
      PoppedKeeps(frames, map[], ThenAll(branch, frames + [map[]], script.branch));
    case Fixed(_, _, _, _) => AllKeepNames(Live(s), frames, script.branch);
    case For(names, _, body) => RoundsKeepNames(names, body, frames, script.rounds);
    case _ =>
  }

  predicate SameKeys(a: Frames, b: Frames) {
    |a| == |b| && forall i :: 0 <= i < |a| ==> a[i].Keys == b[i].Keys
  }

  lemma PoppedKeeps(frames: Frames, top: Vals, all: Frames)
    requires OthersKept(frames + [top], all)
    ensures SameKeys(frames, Popped(all))
  {
    forall i | 0 <= i < |frames| ensures frames[i].Keys == Popped(all)[i].Keys {
      assert (frames + [top])[i] == frames[i];
    }
  }

  lemma {:induction false} AllKeepNames(ss: seq<Stmt>, frames: Frames, scripts: seq<Script>)
    requires |frames| > 0
    ensures OthersKept(frames, ThenAll(ss, frames, scripts))
    decreases ss, 0, 0
  {
    hide Then;
    if |ss| > 0 && |scripts| > 0 {
      KeepsNames(ss[0], frames, scripts[0]);
      AllKeepNames(ss[1..], Then(ss[0], frames, scripts[0]), scripts[1..]);
    }
  }

  lemma {:induction false} RoundsKeepNames(names: seq<string>, body: seq<Stmt>, frames: Frames, rounds: seq<Round>)
    requires |frames| > 0
    ensures SameKeys(frames, ThenRounds(names, body, frames, rounds))
    decreases body, 1, |rounds|
  {
    hide ThenAll, Items, Popped;
    if |rounds| > 0 {
      var top := Items(NameSet(names), rounds[0].item);
      AllKeepNames(body, frames + [top], rounds[0].scripts);
      PoppedKeeps(frames, top, ThenAll(body, frames + [top], rounds[0].scripts));
      RoundsKeepNames(names, body, Popped(ThenAll(body, frames + [top], rounds[0].scripts)), rounds[1..]);
    }
  }

  // ----- whole programs -----

  lemma {:induction false} BlockGoes(ss: seq<Stmt>, scope: Scope, frames: Frames, scripts: seq<Script>)
    requires GuardedAll(ss, scope) && FramesCovered(scope, frames) && ClearAll(ss, frames, scripts)
    requires AllToldRight(VisitsAll(ss, scope, frames, scripts))
    ensures AllAbove(VisitsAll(ss, scope, frames, scripts))
    ensures FinishesAll(ss, scripts) ==> FramesCovered(AfterAll(ss, scope), ThenAll(ss, frames, scripts))
    decreases ss, 0, 0
  {
    hide Guarded, FramesCovered, Clear, ToldRight, IsAbove, Visits, Then, After, Finishes;
    if |ss| > 0 && |scripts| > 0 {
      var here := Visits(ss[0], scope, frames, scripts[0]);
      var after, now := After(ss[0], scope), Then(ss[0], frames, scripts[0]);
      var rest := VisitsAll(ss[1..], after, now, scripts[1..]);
      ToldAppend(here, if Finishes(ss[0], scripts[0]) then rest else []);
      StatementGoes(ss[0], scope, frames, scripts[0]);
      if Finishes(ss[0], scripts[0]) {
        BlockGoes(ss[1..], after, now, scripts[1..]);
        AboveAppend(here, rest);
      } else {
        assert here + [] == here;
      }
    }
  }

  /** In every run of a guarded program, what is evaluated has no chain over its depth. */
  lemma GuardedCountsEnough(ss: seq<Stmt>, scope: Scope, frames: Frames, scripts: seq<Script>, v: Visit)
    requires GuardedAll(ss, scope) && FramesCovered(scope, frames) && ClearAll(ss, frames, scripts)
    requires AllToldRight(VisitsAll(ss, scope, frames, scripts)) && v in VisitsAll(ss, scope, frames, scripts)
    ensures EachAtMost(ChainsIn(v.e, v.scope, v.vals, v.outside), DepthsIn(v.e, v.scope))
  {
    hide GuardedAll, FramesCovered, ClearAll, VisitsAll, ToldRight, ChainsIn, DepthsIn, EachAtMost;
    BlockGoes(ss, scope, frames, scripts);
    var vs := VisitsAll(ss, scope, frames, scripts);
    var i :| 0 <= i < |vs| && vs[i] == v;
    assert IsAbove(vs[i]);
  }

  /** And none goes over the maximum unreported: some depth that is reported is as much. */
  lemma NoExcessIsMissed(ss: seq<Stmt>, scope: Scope, frames: Frames, scripts: seq<Script>, limit: nat, v: Visit,
          chain: nat) returns (d: nat)
    requires GuardedAll(ss, scope) && FramesCovered(scope, frames) && ClearAll(ss, frames, scripts)
    requires AllToldRight(VisitsAll(ss, scope, frames, scripts)) && v in VisitsAll(ss, scope, frames, scripts)
    requires chain in ChainsIn(v.e, v.scope, v.vals, v.outside) && chain > limit
    ensures d >= chain && d in Over(limit, BlockDepths(ss, scope))
  {
    GuardedCountsEnough(ss, scope, frames, scripts, v);
    hide GuardedAll, FramesCovered, ClearAll, VisitsAll, ToldRight, ChainsIn, DepthsIn, Over, BlockDepths;
    var chains, depths := ChainsIn(v.e, v.scope, v.vals, v.outside), DepthsIn(v.e, v.scope);
    var i :| 0 <= i < |chains| && chains[i] == chain;
    d := depths[i];
    ExcessIsReported(ss, scope, frames, scripts, limit, v, d);
  }

  /** The same of a program as it is emitted: what a run of the code finds over the maximum
      is reported of the source. */
  lemma NoEmittedExcessIsMissed(ss: seq<Stmt>, scope: Scope, frames: Frames, scripts: seq<Script>, limit: nat,
          v: Visit, chain: nat) returns (d: nat)
    requires var code := EmittedAll(ss, {});
      && GuardedAll(code, scope) && FramesCovered(scope, frames) && ClearAll(code, frames, scripts)
      && AllToldRight(VisitsAll(code, scope, frames, scripts)) && v in VisitsAll(code, scope, frames, scripts)
    requires chain in ChainsIn(v.e, v.scope, v.vals, v.outside) && chain > limit
    ensures d >= chain && d in Over(limit, BlockDepths(ss, scope))
  {
    hide GuardedAll, FramesCovered, ClearAll, VisitsAll, AllToldRight, ChainsIn, DepthsIn, Over, BlockDepths;
    hide EmittedAll;
    d := NoExcessIsMissed(EmittedAll(ss, {}), scope, frames, scripts, limit, v, chain);
    DepthEmitted.SameDepths(ss, {}, scope);
  }
}
