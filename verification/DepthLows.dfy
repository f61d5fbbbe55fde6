/** The least values a program's variables can have, whatever its branches and rounds, and
    the theorem that the analyzer's depths hold of every run when they hold of those. */
module DepthLows {
  import opened Depth
  import opened DepthRuns

  // ----- one set of values under another -----

  predicate FrameBeneath(a: Vals, b: Vals) {
    a.Keys == b.Keys && forall x :: x in a ==> AtMost(a[x], b[x])
  }

  predicate Beneath(a: Frames, b: Frames) {
    |a| == |b| && forall i :: 0 <= i < |a| ==> FrameBeneath(a[i], b[i])
  }

  lemma BeneathItself(a: Frames)
    ensures Beneath(a, a)
  {}

  lemma BeneathTrans(a: Frames, b: Frames, c: Frames)
    requires Beneath(a, b) && Beneath(b, c)
    ensures Beneath(a, c)
  {
    forall i | 0 <= i < |a| ensures FrameBeneath(a[i], c[i]) {
      assert FrameBeneath(a[i], b[i]) && FrameBeneath(b[i], c[i]);
    }
  }

  lemma UnionBeneath(a: Vals, b: Vals, c: Vals, d: Vals)
    requires FrameBeneath(a, b) && FrameBeneath(c, d)
    ensures FrameBeneath(a + c, b + d)
  {
    hide AtMost;
  }

  lemma BeneathPop(a: Frames, b: Frames)
    requires Beneath(a, b)
    ensures Beneath(Popped(a), Popped(b))
  {
    hide FrameBeneath;
  }

  lemma BeneathPush(a: Frames, b: Frames, c: Vals, d: Vals)
    requires Beneath(a, b) && FrameBeneath(c, d)
    ensures Beneath(a + [c], b + [d])
  {
    hide FrameBeneath;
  }

  lemma {:induction false} BeneathVisible(a: Frames, b: Frames)
    requires Beneath(a, b)
    ensures FrameBeneath(Visible(a), Visible(b)) && Under(Visible(a), Visible(b))
    decreases |a|
  {
    hide AtMost;
    if |a| > 0 {
      var n := |a| - 1;
      BeneathPop(a, b);
      BeneathVisible(a[..n], b[..n]);
      assert FrameBeneath(a[n], b[n]);
      UnionBeneath(Visible(a[..n]), Visible(b[..n]), a[n], b[n]);
    }
  }

  lemma BeneathDefine(a: Frames, b: Frames, c: Vals, d: Vals)
    requires Beneath(a, b) && FrameBeneath(c, d) && |a| > 0
    ensures Beneath(Define(a, c), Define(b, d))
  {
    hide FrameBeneath;
    var n := |a| - 1;
    assert FrameBeneath(a[n], b[n]);
    UnionBeneath(a[n], b[n], c, d);
    BeneathPop(a, b);
    BeneathPush(a[..n], b[..n], a[n] + c, b[n] + d);
  }

  lemma UpdateBeneath(a: Vals, b: Vals, x: string, u: Val, v: Val)
    requires FrameBeneath(a, b) && AtMost(u, v)
    ensures FrameBeneath(a[x := u], b[x := v])
  {
    hide AtMost;
  }

  lemma {:induction false} BeneathSet(a: Frames, b: Frames, x: string, u: Val, v: Val)
    requires Beneath(a, b) && AtMost(u, v)
    ensures Beneath(Set(a, x, u), Set(b, x, v))
    decreases |a|
  {
    hide AtMost;
    if |a| > 0 {
      var n := |a| - 1;
      BeneathPop(a, b);
      assert FrameBeneath(a[n], b[n]);
      if x in a[n] {
        UpdateBeneath(a[n], b[n], x, u, v);
        BeneathPush(a[..n], b[..n], a[n][x := u], b[n][x := v]);
      } else {
        BeneathSet(a[..n], b[..n], x, u, v);
        BeneathPush(Set(a[..n], x, u), Set(b[..n], x, v), a[n], b[n]);
      }
    }
  }

  // ----- the lower of two -----

  function MeetFrame(a: Vals, b: Vals): Vals {
    map x | x in a :: if x in b then Lower(a[x], b[x]) else a[x]
  }

  function Meet(a: Frames, b: Frames): (r: Frames)
    ensures |r| == |a|
  {
    seq(|a|, i requires 0 <= i < |a| => if i < |b| then MeetFrame(a[i], b[i]) else a[i])
  }

  lemma MeetBeneath(a: Frames, b: Frames)
    ensures Beneath(Meet(a, b), a)
    ensures SameNames(a, b) ==> Beneath(Meet(a, b), b)
  {
    forall i | 0 <= i < |a| ensures FrameBeneath(Meet(a, b)[i], a[i]) {}
    if SameNames(a, b) {
      forall i | 0 <= i < |a| ensures FrameBeneath(Meet(a, b)[i], b[i]) {
        assert a[i].Keys == b[i].Keys;
      }
    }
  }

  lemma MeetGreatest(a: Frames, b: Frames, r: Frames)
    requires Beneath(r, a) && Beneath(r, b)
    ensures Beneath(r, Meet(a, b))
  {
    forall i | 0 <= i < |a| ensures FrameBeneath(r[i], Meet(a, b)[i]) {
      assert FrameBeneath(r[i], a[i]) && FrameBeneath(r[i], b[i]);
    }
  }

  /** The same variables in the same blocks. */
  predicate SameNames(a: Frames, b: Frames) {
    |a| == |b| && forall i :: 0 <= i < |a| ==> a[i].Keys == b[i].Keys
  }

  // ----- how far values can fall -----

  function Height(v: Val): nat {
    if v.Plain? then 0 else v.levels + 1
  }

  ghost function Heights(m: Vals, keys: set<string>): nat
    requires keys <= m.Keys
  {
    if keys == {} then 0
    else
      var x :| x in keys;
      Height(m[x]) + Heights(m, keys - {x})
  }

  ghost function Weight(frames: Frames): nat {
    if |frames| == 0 then 0
    else Weight(frames[..|frames| - 1]) + Heights(frames[|frames| - 1], frames[|frames| - 1].Keys)
  }

  lemma {:induction false} HeightsSplit(m: Vals, keys: set<string>, x: string)
    requires keys <= m.Keys && x in keys
    ensures Heights(m, keys) == Height(m[x]) + Heights(m, keys - {x})
    decreases keys
  {
    var y :| y in keys && Heights(m, keys) == Height(m[y]) + Heights(m, keys - {y});
    if y != x {
      HeightsSplit(m, keys - {y}, x);
      HeightsSplit(m, keys - {x}, y);
      assert keys - {y} - {x} == keys - {x} - {y};
    }
  }

  lemma {:induction false} HeightsFall(a: Vals, b: Vals, keys: set<string>)
    requires keys <= a.Keys && keys <= b.Keys && forall x :: x in keys ==> AtMost(a[x], b[x])
    ensures Heights(a, keys) <= Heights(b, keys)
    ensures (exists x :: x in keys && a[x] != b[x]) ==> Heights(a, keys) < Heights(b, keys)
    decreases keys
  {
    if keys != {} {
      var x :| x in keys;
      HeightsSplit(a, keys, x);
      HeightsSplit(b, keys, x);
      HeightsFall(a, b, keys - {x});
    }
  }

  lemma {:induction false} WeightFalls(a: Frames, b: Frames)
    requires Beneath(a, b)
    ensures Weight(a) <= Weight(b)
    ensures a != b ==> Weight(a) < Weight(b)
    decreases |a|
  {
    if |a| > 0 {
      var n := |a| - 1;
      BeneathPop(a, b);
      WeightFalls(a[..n], b[..n]);
      assert FrameBeneath(a[n], b[n]);
      HeightsFall(a[n], b[n], a[n].Keys);
      if a != b && a[..n] == b[..n] {
        assert a == a[..n] + [a[n]] && b == b[..n] + [b[n]];
        assert a[n] != b[n];
      }
    }
  }

  // ----- the least values after a statement -----

  function LowAfter(s: Stmt, low: Frames): Frames
    decreases s, 1, 0
  {
    match s
    case Let(x, e, form) => Bind(low, x, LowOf(e, Visible(low)), form)
    case LetTuple(names, e) => Define(low, Items(Named(names), LowOf(e, Visible(low))))
    case Assign(target, e) => if target.Ident? then Set(low, target.name, LowOf(e, Visible(low))) else low
    case Evaluate(_) => low
    case If(_, a, b) => Meet(Popped(LowAfterAll(a, low + [map[]])), Popped(LowAfterAll(b, low + [map[]])))
    case Fixed(_, holds, a, b) => LowAfterAll(if holds then a else b, low)
    case For(names, _, body) => LowRounds(names, body, low)
  }

  function LowAfterAll(ss: seq<Stmt>, low: Frames): Frames
    decreases ss, 0, 0
  {
    if |ss| == 0 then low else LowAfterAll(ss[1..], LowAfter(ss[0], low))
  }

  function RoundStart(names: seq<string>, low: Frames): Frames {
    low + [Items(NameSet(names), Plain)]
  }

  /** Round after round, until another one lowers nothing. */
  function LowRounds(names: seq<string>, body: seq<Stmt>, low: Frames): Frames
    decreases body, 1, Weight(low)
  {
    var next := Meet(low, Popped(LowAfterAll(body, RoundStart(names, low))));
    if next == low then low
    else
      MeetBeneath(low, Popped(LowAfterAll(body, RoundStart(names, low))));
      WeightFalls(next, low);
      LowRounds(names, body, next)
  }

  // ----- what a statement leaves as it was -----

  /** The blocks around keep their variables; the innermost one has more. */
  predicate NamesKept(a: Frames, b: Frames, more: set<string>) {
    |a| == |b| > 0 && SameNames(a[..|a| - 1], b[..|b| - 1]) && b[|b| - 1].Keys == a[|a| - 1].Keys + more
  }

  lemma NamesPopped(a: Frames, c: Vals, b: Frames, more: set<string>)
    requires NamesKept(a + [c], b, more)
    ensures SameNames(a, Popped(b))
  {
    assert (a + [c])[..|a|] == a;
  }

  lemma NamesSame(a: Frames, b: Frames)
    requires |a| > 0
    ensures SameNames(a, b) <==> NamesKept(a, b, {})
  {
    if NamesKept(a, b, {}) {
      forall i | 0 <= i < |a| ensures a[i].Keys == b[i].Keys {
        if i < |a| - 1 { assert a[..|a| - 1][i].Keys == b[..|b| - 1][i].Keys; }
      }
    }
  }

  lemma NamesThen(a: Frames, b: Frames, c: Frames, more: set<string>, again: set<string>)
    requires NamesKept(a, b, more) && NamesKept(b, c, again)
    ensures NamesKept(a, c, more + again)
  {
    var u, v, w := a[..|a| - 1], b[..|b| - 1], c[..|c| - 1];
    forall i | 0 <= i < |u| ensures u[i].Keys == w[i].Keys {
      assert u[i].Keys == v[i].Keys;
    }
  }

  lemma {:induction false} SetNames(low: Frames, x: string, v: Val)
    ensures SameNames(low, Set(low, x, v))
    decreases |low|
  {
    if |low| > 0 {
      var n := |low| - 1;
      if x !in low[n] { SetNames(low[..n], x, v); }
      forall i | 0 <= i < |low| ensures low[i].Keys == Set(low, x, v)[i].Keys {}
    }
  }

  /** The names a statement declares in its own block. */
  function Declares(s: Stmt): set<string>
    decreases s, 1
  {
    match s
    case Let(x, _, form) => if form.Again? then {} else {x}
    case LetTuple(names, _) => Named(names)
    case Fixed(_, holds, a, b) => DeclaresAll(if holds then a else b)
    case _ => {}
  }

  function DeclaresAll(ss: seq<Stmt>): set<string>
    decreases ss, 0
  {
    if |ss| == 0 then {} else Declares(ss[0]) + DeclaresAll(ss[1..])
  }

  lemma BindNames(low: Frames, x: string, v: Val, form: Form)
    requires |low| > 0
    ensures NamesKept(low, Bind(low, x, v, form), if form.Again? then {} else {x})
  {
    hide NamesKept, SameNames;
    if form.Again? {
      SetNames(low, x, v);
      NamesSame(low, Set(low, x, v));
    } else {
      DefineNames(low, map[x := v]);
      assert map[x := v].Keys == {x};
    }
  }

  lemma {:induction false} LowNames(s: Stmt, low: Frames)
    requires |low| > 0
    ensures NamesKept(low, LowAfter(s, low), Declares(s))
    decreases s, 1, 0
  {
    hide LowOf, NamesKept, SameNames;
    match s
    case Let(x, e, form) => BindNames(low, x, LowOf(e, Visible(low)), form);
    case LetTuple(names, e) =>
      var items := Items(Named(names), LowOf(e, Visible(low)));
      DefineNames(low, items);
      assert items.Keys == Named(names);
    case Assign(target, e) =>
      if target.Ident? {
        SetNames(low, target.name, LowOf(e, Visible(low)));
        NamesSame(low, LowAfter(s, low));
      } else {
        NothingNames(low);
      }
    case Evaluate(_) => NothingNames(low);
    case Fixed(_, _, _, _) => LowNamesAll(Live(s), low);
    case If(_, a, b) =>
      LowNamesAll(a, low + [map[]]);
      NamesPopped(low, map[], LowAfterAll(a, low + [map[]]), DeclaresAll(a));
      BeneathNames(Meet(Popped(LowAfterAll(a, low + [map[]])), Popped(LowAfterAll(b, low + [map[]]))),
                   Popped(LowAfterAll(a, low + [map[]])), low) by {
        MeetBeneath(Popped(LowAfterAll(a, low + [map[]])), Popped(LowAfterAll(b, low + [map[]])));
      }
      NamesSame(low, LowAfter(s, low));
    case For(names, _, body) =>
      RoundsBeneath(names, body, low);
      SelfNames(low);
      BeneathNames(LowAfter(s, low), low, low);
      NamesSame(low, LowAfter(s, low));
  }

  lemma SelfNames(a: Frames)
    ensures SameNames(a, a)
  {}

  lemma NothingNames(a: Frames)
    requires |a| > 0
    ensures NamesKept(a, a, {})
  {}

  lemma DefineNames(low: Frames, more: Vals)
    requires |low| > 0
    ensures NamesKept(low, Define(low, more), more.Keys)
  {}

  lemma BeneathNames(a: Frames, b: Frames, c: Frames)
    requires Beneath(a, b) && SameNames(c, b)
    ensures SameNames(c, a)
  {
    forall i | 0 <= i < |a| ensures c[i].Keys == a[i].Keys { assert FrameBeneath(a[i], b[i]); }
  }

  lemma {:induction false} LowNamesAll(ss: seq<Stmt>, low: Frames)
    requires |low| > 0
    ensures NamesKept(low, LowAfterAll(ss, low), DeclaresAll(ss))
    decreases ss, 0, 0
  {
    hide LowAfter, NamesKept;
    if |ss| == 0 {
      NothingNames(low);
    } else {
      LowNames(ss[0], low);
      Longer(low, LowAfter(ss[0], low), Declares(ss[0]));
      LowNamesAll(ss[1..], LowAfter(ss[0], low));
      NamesThen(low, LowAfter(ss[0], low), LowAfterAll(ss, low), Declares(ss[0]), DeclaresAll(ss[1..]));
    }
  }

  lemma Longer(a: Frames, b: Frames, more: set<string>)
    requires NamesKept(a, b, more)
    ensures |b| > 0 && |a| == |b|
  {}

  lemma {:induction false} RoundsBeneath(names: seq<string>, body: seq<Stmt>, low: Frames)
    ensures Beneath(LowRounds(names, body, low), low)
    decreases Weight(low)
  {
    hide LowAfterAll, Beneath, Meet;
    var once := Popped(LowAfterAll(body, RoundStart(names, low)));
    var next := Meet(low, once);
    BeneathItself(low);
    if next != low {
      MeetBeneath(low, once);
      WeightFalls(next, low);
      RoundsBeneath(names, body, next);
      BeneathTrans(LowRounds(names, body, next), next, low);
    }
  }

  /** Where the rounds end, another one is above. */
  predicate Stable(names: seq<string>, body: seq<Stmt>, low: Frames) {
    Beneath(low, Popped(LowAfterAll(body, RoundStart(names, low))))
  }

  lemma {:induction false} RoundsStable(names: seq<string>, body: seq<Stmt>, low: Frames)
    requires |low| > 0
    ensures Stable(names, body, LowRounds(names, body, low)) && |LowRounds(names, body, low)| == |low|
    decreases Weight(low)
  {
    hide LowAfterAll, Beneath, Meet, NamesKept, SameNames, Popped;
    var once := Popped(LowAfterAll(body, RoundStart(names, low)));
    var next := Meet(low, once);
    MeetBeneath(low, once);
    if next == low {
      LowNamesAll(body, RoundStart(names, low));
      NamesPopped(low, Items(NameSet(names), Plain), LowAfterAll(body, RoundStart(names, low)), DeclaresAll(body));
    } else {
      WeightFalls(next, low);
      RoundsStable(names, body, next);
    }
  }

  // ----- the analyzer is right about the least values -----

  /** Every expression, where it is checked, has depths that hold of the least values. */
  predicate Fine(s: Stmt, scope: Scope, low: Frames)
    decreases s, 1
  {
    match s
    case Let(_, e, _) => LowHolds(e, scope, Visible(low))
    case LetTuple(_, e) => LowHolds(e, scope, Visible(low))
    case Assign(target, e) => LowHolds(target, scope, Visible(low)) && LowHolds(e, scope, Visible(low))
    case Evaluate(e) => LowHolds(e, scope, Visible(low))
    case If(c, a, b) =>
      && LowHolds(c, scope, Visible(low))
      && FineAll(a, scope, low + [map[]]) && FineAll(b, AfterAll(a, scope), low + [map[]])
    case Fixed(_, holds, a, b) => if holds then FineAll(a, scope, low) else FineAll(b, AfterAll(a, scope), low)
    case For(names, iterable, body) =>
      && LowHolds(iterable, scope, Visible(low))
      && FineAll(body, Untyped(scope, NameSet(names)), RoundStart(names, LowRounds(names, body, low)))
  }

  predicate FineAll(ss: seq<Stmt>, scope: Scope, low: Frames)
    decreases ss, 0
  {
    |ss| == 0 || (Fine(ss[0], scope, low) && FineAll(ss[1..], After(ss[0], scope), LowAfter(ss[0], low)))
  }

  // ----- the analyzer never counts too much -----

  lemma SeenHolds(e: Expr, scope: Scope, low: Frames, frames: Frames, script: Script)
    requires LowHolds(e, scope, Visible(low)) && Beneath(low, frames)
    requires Typed(e, Visible(frames), script.outside)
    ensures Seen(e, scope, frames, script).Holds()
  {
    hide LowHolds, Typed, Beneath, Under;
    BeneathVisible(low, frames);
    HoldsAbove(e, scope, Visible(low), Visible(frames), script.outside);
  }

  lemma ValueAbove(e: Expr, scope: Scope, low: Frames, frames: Frames, script: Script)
    requires Beneath(low, frames) && Typed(e, Visible(frames), script.outside)
    ensures AtMost(LowOf(e, Visible(low)), Values(e, frames, script))
  {
    hide Typed, Beneath, Under, LowOf, ValOf;
    BeneathVisible(low, frames);
    RunsAbove(e, scope, Visible(low), Visible(frames), script.outside);
  }

  lemma OneBeneath(x: string, u: Val, v: Val)
    requires AtMost(u, v)
    ensures FrameBeneath(map[x := u], map[x := v])
  {}

  lemma BeneathBind(a: Frames, b: Frames, x: string, u: Val, v: Val, form: Form)
    requires Beneath(a, b) && AtMost(u, v) && |a| > 0
    ensures Beneath(Bind(a, x, u, form), Bind(b, x, v, form))
  {
    hide Beneath, AtMost, Set, Define, FrameBeneath;
    if form.Again? {
      BeneathSet(a, b, x, u, v);
    } else {
      OneBeneath(x, u, v);
      BeneathDefine(a, b, map[x := u], map[x := v]);
    }
  }

  lemma ItemsBeneath(names: set<string>, u: Val, v: Val)
    requires AtMost(u, v)
    ensures FrameBeneath(Items(names, u), Items(names, v))
  {}

  ghost predicate Right(s: Stmt, scope: Scope, low: Frames, frames: Frames, script: Script) {
    && AllHold(Visits(s, scope, frames, script))
    && (Finishes(s, script) ==> Beneath(LowAfter(s, low), Then(s, frames, script)))
  }

  lemma LetRight(s: Stmt, scope: Scope, low: Frames, frames: Frames, script: Script)
    requires (s.Let? || s.LetTuple?) && |low| > 0 && Beneath(low, frames) && Fine(s, scope, low)
    requires AllTypedVisits(Visits(s, scope, frames, script))
    ensures Right(s, scope, low, frames, script)
  {
    hide LowHolds, Typed, Beneath, FrameBeneath, Define, Bind, LowOf, AtMost, Visible, Values, Visit.Holds, AllHold;
    hide AllTypedVisits;
    var e := s.value;
    OneVisit(Seen(e, scope, frames, script));
    SeenHolds(e, scope, low, frames, script);
    ValueAbove(e, scope, low, frames, script);
    var u, v := LowOf(e, Visible(low)), Values(e, frames, script);
    if s.Let? {
      BeneathBind(low, frames, s.name, u, v, s.form);
    } else {
      ItemsBeneath(Named(s.names), u, v);
      BeneathDefine(low, frames, Items(Named(s.names), u), Items(Named(s.names), v));
    }
  }

  lemma AssignRight(s: Stmt, scope: Scope, low: Frames, frames: Frames, script: Script)
    requires s.Assign? && Beneath(low, frames) && Fine(s, scope, low)
    requires AllTypedVisits(Visits(s, scope, frames, script))
    ensures Right(s, scope, low, frames, script)
  {
    hide LowHolds, Typed, Beneath, Set, LowOf, AtMost, Visible, Values, Visit.Holds, AllHold, AllTypedVisits;
    var first, second := Seen(s.target, scope, frames, script), Seen(s.value, scope, frames, script);
    assert Visits(s, scope, frames, script) == [first] + [second];
    AppendTyped([first], [second]);
    OneVisit(first);
    OneVisit(second);
    SeenHolds(s.target, scope, low, frames, script);
    SeenHolds(s.value, scope, low, frames, script);
    AppendHolds([first], [second]);
    ValueAbove(s.value, scope, low, frames, script);
    if s.target.Ident? {
      BeneathSet(low, frames, s.target.name, LowOf(s.value, Visible(low)), Values(s.value, frames, script));
    }
  }

  /** Whatever a run evaluates, the depth the analyzer had for it is at most the chain
      that is really there, for the expression and for every operation in it; and its
      variables are worth at least the least values afterwards. */
  lemma {:induction false} NeverTooDeep(s: Stmt, scope: Scope, low: Frames, frames: Frames, script: Script)
    requires |low| > 0 && Beneath(low, frames) && Fine(s, scope, low)
    requires AllTypedVisits(Visits(s, scope, frames, script))
    ensures AllHold(Visits(s, scope, frames, script))
    ensures Finishes(s, script) ==> Beneath(LowAfter(s, low), Then(s, frames, script))
    decreases s, 1, 0
  {
    hide LowHolds, Typed, Beneath, Visit.Holds, AllHold, AllTypedVisits, Visible, Values;
    match s
    case Let(_, _, _) => LetRight(s, scope, low, frames, script);
    case LetTuple(_, _) => LetRight(s, scope, low, frames, script);
    case Assign(_, _) => AssignRight(s, scope, low, frames, script);
    case Evaluate(e) =>
      OneVisit(Seen(e, scope, frames, script));
      SeenHolds(e, scope, low, frames, script);
    case If(_, _, _) => IfNeverTooDeep(s, scope, low, frames, script);
    case Fixed(_, _, _, _) => AllNeverTooDeep(Live(s), LiveScope(s, scope), low, frames, script.branch);
    case For(_, _, _) => ForNeverTooDeep(s, scope, low, frames, script);
  }

  lemma NothingBeneath()
    ensures FrameBeneath(map[], map[])
  {}

  lemma {:induction false} IfNeverTooDeep(s: Stmt, scope: Scope, low: Frames, frames: Frames, script: Script)
    requires s.If? && |low| > 0 && Beneath(low, frames) && Fine(s, scope, low)
    requires AllTypedVisits(Visits(s, scope, frames, script))
    ensures AllHold(Visits(s, scope, frames, script))
    ensures Finishes(s, script) ==> Beneath(LowAfter(s, low), Then(s, frames, script))
    decreases s, 0, 0
  {
    hide LowHolds, Typed, Beneath, Visit.Holds, AllHold, AllTypedVisits, Visible, AfterAll, LowAfterAll, ThenAll,
      VisitsAll, FinishesAll, FineAll, Meet, FrameBeneath, Popped;
    var first := [Seen(s.cond, scope, frames, script)];
    var start := if script.taken then scope else AfterAll(s.then_, scope);
    var branch := if script.taken then s.then_ else s.else_;
    var rest := VisitsAll(branch, start, frames + [map[]], script.branch);
    assert Visits(s, scope, frames, script) == first + rest;
    AppendTyped(first, rest);
    OneVisit(first[0]);
    SeenHolds(s.cond, scope, low, frames, script);
    NothingBeneath();
    BeneathPush(low, frames, map[], map[]);
    AllNeverTooDeep(branch, start, low + [map[]], frames + [map[]], script.branch);
    AppendHolds(first, rest);
    if Finishes(s, script) {
      BeneathPop(LowAfterAll(branch, low + [map[]]), ThenAll(branch, frames + [map[]], script.branch));
      LowestBranch(s.then_, s.else_, low);
      BeneathTrans(LowAfter(s, low), Popped(LowAfterAll(branch, low + [map[]])), Then(s, frames, script));
    }
  }

  lemma LowestBranch(a: seq<Stmt>, b: seq<Stmt>, low: Frames)
    requires |low| > 0
    ensures var after := Meet(Popped(LowAfterAll(a, low + [map[]])), Popped(LowAfterAll(b, low + [map[]])));
      && Beneath(after, Popped(LowAfterAll(a, low + [map[]])))
      && Beneath(after, Popped(LowAfterAll(b, low + [map[]])))
  {
    hide LowAfterAll, Beneath, Meet, Popped, NamesKept;
    LowNamesAll(a, low + [map[]]);
    LowNamesAll(b, low + [map[]]);
    NamesPopped(low, map[], LowAfterAll(a, low + [map[]]), DeclaresAll(a));
    NamesPopped(low, map[], LowAfterAll(b, low + [map[]]), DeclaresAll(b));
    MeetBeneath(Popped(LowAfterAll(a, low + [map[]])), Popped(LowAfterAll(b, low + [map[]])));
  }

  lemma {:induction false} ForNeverTooDeep(s: Stmt, scope: Scope, low: Frames, frames: Frames, script: Script)
    requires s.For? && |low| > 0 && Beneath(low, frames) && Fine(s, scope, low)
    requires AllTypedVisits(Visits(s, scope, frames, script))
    ensures AllHold(Visits(s, scope, frames, script))
    ensures Finishes(s, script) ==> Beneath(LowAfter(s, low), Then(s, frames, script))
    decreases s, 0, 0
  {
    hide LowHolds, Typed, Beneath, Visit.Holds, AllHold, AllTypedVisits, Visible, VisitsRounds, LowRounds, FineAll,
      ThenRounds, FinishesAll, Stable;
    var first := [Seen(s.iterable, scope, frames, script)];
    var rest := VisitsRounds(s.names, s.body, Untyped(scope, NameSet(s.names)), frames, script.rounds);
    var least := LowRounds(s.names, s.body, low);
    assert Visits(s, scope, frames, script) == first + rest;
    AppendTyped(first, rest);
    OneVisit(first[0]);
    SeenHolds(s.iterable, scope, low, frames, script);
    RoundsBeneath(s.names, s.body, low);
    RoundsStable(s.names, s.body, low);
    BeneathTrans(least, low, frames);
    RoundsNeverTooDeep(s.names, s.body, Untyped(scope, NameSet(s.names)), least, frames, script.rounds);
    AppendHolds(first, rest);
  }

  lemma {:induction false} RoundsNeverTooDeep(names: seq<string>, body: seq<Stmt>, scope: Scope, low: Frames,
          frames: Frames, rounds: seq<Round>)
    requires |low| > 0 && Beneath(low, frames) && Stable(names, body, low) &&
        FineAll(body, scope, RoundStart(names, low))
    requires AllTypedVisits(VisitsRounds(names, body, scope, frames, rounds))
    ensures AllHold(VisitsRounds(names, body, scope, frames, rounds))
    ensures (forall i :: 0 <= i < |rounds| ==> FinishesAll(body, rounds[i].scripts)) ==>
              Beneath(low, ThenRounds(names, body, frames, rounds))
    decreases body, 1, |rounds|
  {
    hide Typed, Beneath, Visit.Holds, AllHold, AllTypedVisits, VisitsAll, ThenAll, FineAll, Items, FinishesAll;
    hide LowAfterAll;
    hide Popped, FrameBeneath;
    if |rounds| > 0 {
      var names', scripts := NameSet(names), rounds[0].scripts;
      var inner := frames + [Items(names', rounds[0].item)];
      PlainAtMost(rounds[0].item);
      ItemsBeneath(names', Plain, rounds[0].item);
      BeneathPush(low, frames, Items(names', Plain), Items(names', rounds[0].item));
      var now := VisitsAll(body, scope, inner, scripts);
      var next := Popped(ThenAll(body, inner, scripts));
      var later := if FinishesAll(body, scripts) then VisitsRounds(names, body, scope, next, rounds[1..]) else [];
      AppendTyped(now, later);
      AllNeverTooDeep(body, scope, RoundStart(names, low), inner, scripts);
      if FinishesAll(body, scripts) {
        BeneathPop(LowAfterAll(body, RoundStart(names, low)), ThenAll(body, inner, scripts));
        BeneathTrans(low, Popped(LowAfterAll(body, RoundStart(names, low))), next);
        RoundsNeverTooDeep(names, body, scope, low, next, rounds[1..]);
      } else {
        NothingHolds();
      }
      AppendHolds(now, later);
    } else {
      NothingHolds();
    }
  }

  lemma NothingHolds()
    ensures AllHold([])
  {}

  lemma {:induction false} AllNeverTooDeep(ss: seq<Stmt>, scope: Scope, low: Frames, frames: Frames,
          scripts: seq<Script>)
    requires |low| > 0 && Beneath(low, frames) && FineAll(ss, scope, low)
    requires AllTypedVisits(VisitsAll(ss, scope, frames, scripts))
    ensures AllHold(VisitsAll(ss, scope, frames, scripts))
    ensures FinishesAll(ss, scripts) ==> Beneath(LowAfterAll(ss, low), ThenAll(ss, frames, scripts))
    decreases ss, 0, 0
  {
    hide Visit.Holds, AllHold, AllTypedVisits, Fine, Visits, After, Then, Beneath, Finishes, LowAfter;
    NothingHolds();
    if |ss| > 0 && |scripts| > 0 {
      var s, script := ss[0], scripts[0];
      var now := Visits(s, scope, frames, script);
      var rest := VisitsAll(ss[1..], After(s, scope), Then(s, frames, script), scripts[1..]);
      var later := if Finishes(s, script) then rest else [];
      AppendTyped(now, later);
      NeverTooDeep(s, scope, low, frames, script);
      if Finishes(s, script) {
        LowLength(s, low);
        AllNeverTooDeep(ss[1..], After(s, scope), LowAfter(s, low), Then(s, frames, script), scripts[1..]);
      }
      AppendHolds(now, later);
    }
  }

  lemma LowLength(s: Stmt, low: Frames)
    requires |low| > 0
    ensures |LowAfter(s, low)| == |low|
  {
    hide LowAfter, Declares;
    LowNames(s, low);
  }
}
