/** The exact condition: along every way through a program, the depths hold of the values
    that are least on that way. Without loops there are finitely many ways. */
module DepthWays {
  import opened Depth
  import opened DepthRuns
  import opened DepthLows
  import opened DepthExact

  // ----- one way -----

  /** The least values on the way a script takes. */
  function WayThen(s: Stmt, low: Frames, script: Script): Frames
    decreases s, 1, 0
  {
    match s
    case Let(x, e, form) => Bind(low, x, LowOf(e, Visible(low)), form)
    case LetTuple(names, e) => Define(low, Items(Named(names), LowOf(e, Visible(low))))
    case Assign(target, e) => if target.Ident? then Set(low, target.name, LowOf(e, Visible(low))) else low
    case Evaluate(_) => low
    case If(_, a, b) => Popped(WayThenAll(if script.taken then a else b, low + [map[]], script.branch))
    case Fixed(_, holds, a, b) => WayThenAll(if holds then a else b, low, script.branch)
    case For(names, _, body) => WayRounds(names, body, low, script.rounds)
  }

  function WayThenAll(ss: seq<Stmt>, low: Frames, scripts: seq<Script>): Frames
    decreases ss, 0, 0
  {
    if |ss| == 0 || |scripts| == 0 then low
    else WayThenAll(ss[1..], WayThen(ss[0], low, scripts[0]), scripts[1..])
  }

  function WayRounds(names: seq<string>, body: seq<Stmt>, low: Frames, rounds: seq<Round>): Frames
    decreases body, 1, |rounds|
  {
    if |rounds| == 0 then low
    else WayRounds(names, body, Popped(WayThenAll(body, RoundStart(names, low), rounds[0].scripts)), rounds[1..])
  }

  /** The depths hold of the values that are least on the way, wherever it comes to. */
  predicate WayFine(s: Stmt, scope: Scope, low: Frames, script: Script)
    decreases s, 1, 0
  {
    match s
    case Let(_, e, _) => LowHolds(e, scope, Visible(low))
    case LetTuple(_, e) => LowHolds(e, scope, Visible(low))
    case Assign(target, e) => LowHolds(target, scope, Visible(low)) && LowHolds(e, scope, Visible(low))
    case Evaluate(e) => LowHolds(e, scope, Visible(low))
    case If(c, a, b) =>
      && LowHolds(c, scope, Visible(low))
      && if script.taken then WayFineAll(a, scope, low + [map[]], script.branch)
         else WayFineAll(b, AfterAll(a, scope), low + [map[]], script.branch)
    case Fixed(_, holds, a, b) =>
      if holds then WayFineAll(a, scope, low, script.branch) else WayFineAll(b, AfterAll(a, scope), low, script.branch)
    case For(names, iterable, body) =>
      && LowHolds(iterable, scope, Visible(low))
      && WayFineRounds(names, body, Untyped(scope, NameSet(names)), low, script.rounds)
  }

  predicate WayFineAll(ss: seq<Stmt>, scope: Scope, low: Frames, scripts: seq<Script>)
    decreases ss, 0, 0
  {
    |ss| == 0 || |scripts| == 0 ||
    (&& WayFine(ss[0], scope, low, scripts[0])
     && (Finishes(ss[0], scripts[0]) ==>
           WayFineAll(ss[1..], After(ss[0], scope), WayThen(ss[0], low, scripts[0]), scripts[1..])))
  }

  predicate WayFineRounds(names: seq<string>, body: seq<Stmt>, scope: Scope, low: Frames, rounds: seq<Round>)
    decreases body, 1, |rounds|
  {
    |rounds| == 0 ||
    (&& WayFineAll(body, scope, RoundStart(names, low), rounds[0].scripts)
     && (FinishesAll(body, rounds[0].scripts) ==>
           WayFineRounds(names, body, scope,
             Popped(WayThenAll(body, RoundStart(names, low), rounds[0].scripts)), rounds[1..])))
  }

  // ----- runs are above their way -----

  ghost predicate Above(s: Stmt, scope: Scope, low: Frames, frames: Frames, script: Script) {
    && AllHold(Visits(s, scope, frames, script))
    && (Finishes(s, script) ==> Beneath(WayThen(s, low, script), Then(s, frames, script)))
  }

  ghost predicate AboveAll(ss: seq<Stmt>, scope: Scope, low: Frames, frames: Frames, scripts: seq<Script>) {
    && AllHold(VisitsAll(ss, scope, frames, scripts))
    && (FinishesAll(ss, scripts) ==> Beneath(WayThenAll(ss, low, scripts), ThenAll(ss, frames, scripts)))
  }

  /** Where a run and its way may start. */
  ghost predicate Starts(low: Frames, frames: Frames) {
    |low| > 0 && Beneath(low, frames)
  }

  lemma {:induction false} WayIsBelow(s: Stmt, scope: Scope, low: Frames, frames: Frames, script: Script)
    requires Starts(low, frames) && WayFine(s, scope, low, script) && AllTypedVisits(Visits(s, scope, frames, script))
    ensures Above(s, scope, low, frames, script)
    decreases s, 1, 0
  {
    hide LowHolds, Typed, Beneath, Visit.Holds, AllHold, AllTypedVisits;
    hide Visible, Values, WayFineAll, VisitsAll, ThenAll;
    hide WayThenAll, FinishesAll, WayFineRounds, VisitsRounds, ThenRounds, WayRounds;
    match s
    case Let(_, _, _) => SimpleAbove(s, scope, low, frames, script);
    case LetTuple(_, _) => SimpleAbove(s, scope, low, frames, script);
    case Assign(_, _) => SimpleAbove(s, scope, low, frames, script);
    case Evaluate(_) => SimpleAbove(s, scope, low, frames, script);
    case If(_, _, _) => IfAbove(s, scope, low, frames, script);
    case Fixed(_, _, _, _) => AllWaysBelow(Live(s), LiveScope(s, scope), low, frames, script.branch);
    case For(_, _, _) =>
      var inside := Untyped(scope, NameSet(s.names));
      var first := [Seen(s.iterable, scope, frames, script)];
      AppendTyped(first, VisitsRounds(s.names, s.body, inside, frames, script.rounds));
      OneVisit(first[0]);
      SeenHolds(s.iterable, scope, low, frames, script);
      RoundsBelow(s.names, s.body, inside, low, frames, script.rounds);
      AppendHolds(first, VisitsRounds(s.names, s.body, inside, frames, script.rounds));
  }

  /** One that has no block: its way is what it leaves in any run. */
  lemma SimpleAbove(s: Stmt, scope: Scope, low: Frames, frames: Frames, script: Script)
    requires !s.If? && !s.Fixed? && !s.For?
    requires Starts(low, frames) && WayFine(s, scope, low, script) && AllTypedVisits(Visits(s, scope, frames, script))
    ensures Above(s, scope, low, frames, script)
  {
    hide LowHolds, Typed, Beneath, Visit.Holds, AllHold, AllTypedVisits, Visible, Values, Bind, Set, Define;
    NeverTooDeep(s, scope, low, frames, script);
  }

  lemma {:induction false} IfAbove(s: Stmt, scope: Scope, low: Frames, frames: Frames, script: Script)
    requires s.If? && Starts(low, frames) && WayFine(s, scope, low, script)
    requires AllTypedVisits(Visits(s, scope, frames, script))
    ensures Above(s, scope, low, frames, script)
    decreases s, 0, 0
  {
    hide LowHolds, Typed, Beneath, Visit.Holds, AllHold, AllTypedVisits, Visible, AfterAll, WayThenAll, ThenAll;
    hide VisitsAll, FinishesAll, WayFineAll, FrameBeneath, Popped;
    var first := [Seen(s.cond, scope, frames, script)];
    var start := if script.taken then scope else AfterAll(s.then_, scope);
    var branch := if script.taken then s.then_ else s.else_;
    var rest := VisitsAll(branch, start, frames + [map[]], script.branch);
    assert Visits(s, scope, frames, script) == first + rest;
    AppendTyped(first, rest);
    OneVisit(first[0]);
    SeenHolds(s.cond, scope, low, frames, script);
    NothingBeneath();
    BeneathPush(low, frames, map[], map[]);
    AllWaysBelow(branch, start, low + [map[]], frames + [map[]], script.branch);
    AppendHolds(first, rest);
    if Finishes(s, script) {
      BeneathPop(WayThenAll(branch, low + [map[]], script.branch), ThenAll(branch, frames + [map[]], script.branch));
    }
  }

  lemma {:induction false} RoundsBelow(names: seq<string>, body: seq<Stmt>, scope: Scope, low: Frames,
          frames: Frames, rounds: seq<Round>)
    requires Starts(low, frames) && WayFineRounds(names, body, scope, low, rounds)
    requires AllTypedVisits(VisitsRounds(names, body, scope, frames, rounds))
    ensures AllHold(VisitsRounds(names, body, scope, frames, rounds))
    ensures (forall i :: 0 <= i < |rounds| ==> FinishesAll(body, rounds[i].scripts)) ==>
              Beneath(WayRounds(names, body, low, rounds), ThenRounds(names, body, frames, rounds))
    decreases body, 1, |rounds|
  {
    hide Typed, Beneath, Visit.Holds, AllHold, AllTypedVisits, VisitsAll, ThenAll, WayFineAll, Items, FinishesAll;
    hide WayThenAll, Popped, FrameBeneath;
    NothingHolds();
    if |rounds| > 0 {
      var scripts, start := rounds[0].scripts, RoundStart(names, low);
      var inner := frames + [Items(NameSet(names), rounds[0].item)];
      PlainAtMost(rounds[0].item);
      ItemsBeneath(NameSet(names), Plain, rounds[0].item);
      BeneathPush(low, frames, Items(NameSet(names), Plain), Items(NameSet(names), rounds[0].item));
      var now := VisitsAll(body, scope, inner, scripts);
      var next := Popped(ThenAll(body, inner, scripts));
      var later := if FinishesAll(body, scripts) then VisitsRounds(names, body, scope, next, rounds[1..]) else [];
      AppendTyped(now, later);
      AllWaysBelow(body, scope, start, inner, scripts);
      if FinishesAll(body, scripts) {
        BeneathPop(WayThenAll(body, start, scripts), ThenAll(body, inner, scripts));
        WayLengthAll(body, start, scripts);
        PoppedLength(WayThenAll(body, start, scripts));
        RoundsBelow(names, body, scope, Popped(WayThenAll(body, start, scripts)), next, rounds[1..]);
      }
      AppendHolds(now, later);
    }
  }

  lemma PoppedLength(frames: Frames)
    ensures |frames| > 0 ==> |Popped(frames)| == |frames| - 1
  {}

  lemma {:induction false} AllWaysBelow(ss: seq<Stmt>, scope: Scope, low: Frames, frames: Frames, scripts: seq<Script>)
    requires Starts(low, frames) && WayFineAll(ss, scope, low, scripts)
    requires AllTypedVisits(VisitsAll(ss, scope, frames, scripts))
    ensures AboveAll(ss, scope, low, frames, scripts)
    decreases ss, 0, 0
  {
    hide Visit.Holds, AllHold, AllTypedVisits, WayFine, Visits, After, Then, Beneath, Finishes, WayThen;
    NothingHolds();
    if |ss| > 0 && |scripts| > 0 {
      var s, script := ss[0], scripts[0];
      var now := Visits(s, scope, frames, script);
      var rest := VisitsAll(ss[1..], After(s, scope), Then(s, frames, script), scripts[1..]);
      var later := if Finishes(s, script) then rest else [];
      AppendTyped(now, later);
      WayIsBelow(s, scope, low, frames, script);
      if Finishes(s, script) {
        WayLength(s, low, script);
        AllWaysBelow(ss[1..], After(s, scope), WayThen(s, low, script), Then(s, frames, script), scripts[1..]);
      }
      AppendHolds(now, later);
    }
  }

  lemma {:induction false} WayLength(s: Stmt, low: Frames, script: Script)
    ensures |low| > 0 ==> |WayThen(s, low, script)| == |low|
    decreases s, 1, 0
  {
    hide LowOf, Visible, WayThenAll;
    match s
    case Let(x, e, _) => SetNames(low, x, LowOf(e, Visible(low)));
    case Assign(target, e) => if target.Ident? { SetNames(low, target.name, LowOf(e, Visible(low))); }
    case If(_, a, b) => WayLengthAll(if script.taken then a else b, low + [map[]], script.branch);
    case Fixed(_, _, _, _) => WayLengthAll(Live(s), low, script.branch);
    case For(names, _, body) => RoundsLength(names, body, low, script.rounds);
    case _ =>
  }

  lemma {:induction false} WayLengthAll(ss: seq<Stmt>, low: Frames, scripts: seq<Script>)
    ensures |low| > 0 ==> |WayThenAll(ss, low, scripts)| == |low|
    decreases ss, 0, 0
  {
    hide WayThen;
    if |ss| > 0 && |scripts| > 0 {
      WayLength(ss[0], low, scripts[0]);
      WayLengthAll(ss[1..], WayThen(ss[0], low, scripts[0]), scripts[1..]);
    }
  }

  lemma {:induction false} RoundsLength(names: seq<string>, body: seq<Stmt>, low: Frames, rounds: seq<Round>)
    ensures |low| > 0 ==> |WayRounds(names, body, low, rounds)| == |low|
    decreases body, 1, |rounds|
  {
    hide WayThenAll;
    if |rounds| > 0 {
      WayLengthAll(body, RoundStart(names, low), rounds[0].scripts);
      RoundsLength(names, body, Popped(WayThenAll(body, RoundStart(names, low), rounds[0].scripts)), rounds[1..]);
    }
  }

  // ----- the run that has the least values of its way -----

  /** Wherever the way comes to, the world outside the model can be the least it may be. */
  ghost predicate WaySharp(s: Stmt, low: Frames, script: Script)
    decreases s, 1, 0
  {
    match s
    case Let(_, e, _) => CanBeSharp(e, Visible(low))
    case LetTuple(_, e) => CanBeSharp(e, Visible(low))
    case Assign(target, e) => exists o: Outside :: Sharp(target, Visible(low), o) && Sharp(e, Visible(low), o)
    case Evaluate(e) => CanBeSharp(e, Visible(low))
    case If(c, a, b) =>
      CanBeSharp(c, Visible(low)) && WaySharpAll(if script.taken then a else b, low + [map[]], script.branch)
    case Fixed(_, holds, a, b) => WaySharpAll(if holds then a else b, low, script.branch)
    case For(names, iterable, body) =>
      CanBeSharp(iterable, Visible(low)) && WaySharpRounds(names, body, low, script.rounds)
  }

  ghost predicate WaySharpAll(ss: seq<Stmt>, low: Frames, scripts: seq<Script>)
    decreases ss, 0, 0
  {
    |ss| == 0 || |scripts| == 0 ||
    (&& WaySharp(ss[0], low, scripts[0])
     && (Finishes(ss[0], scripts[0]) ==> WaySharpAll(ss[1..], WayThen(ss[0], low, scripts[0]), scripts[1..])))
  }

  ghost predicate WaySharpRounds(names: seq<string>, body: seq<Stmt>, low: Frames, rounds: seq<Round>)
    decreases body, 1, |rounds|
  {
    |rounds| == 0 ||
    (&& WaySharpAll(body, RoundStart(names, low), rounds[0].scripts)
     && (FinishesAll(body, rounds[0].scripts) ==>
           WaySharpRounds(names, body, Popped(WayThenAll(body, RoundStart(names, low), rounds[0].scripts)),
                          rounds[1..])))
  }

  /** The run of a script is its way, least value for least value. */
  ghost predicate IsWay(s: Stmt, scope: Scope, low: Frames, way: Script, script: Script) {
    && AllTypedVisits(Visits(s, scope, low, script))
    && (AllHold(Visits(s, scope, low, script)) <==> WayFine(s, scope, low, way))
    && (Finishes(s, script) <==> Finishes(s, way))
    && (Finishes(s, way) ==> Then(s, low, script) == WayThen(s, low, way))
  }

  ghost predicate AreWays(ss: seq<Stmt>, scope: Scope, low: Frames, ways: seq<Script>, scripts: seq<Script>) {
    && |scripts| == |ways|
    && AllTypedVisits(VisitsAll(ss, scope, low, scripts))
    && (AllHold(VisitsAll(ss, scope, low, scripts)) <==> WayFineAll(ss, scope, low, ways))
    && (FinishesAll(ss, scripts) <==> FinishesAll(ss, ways))
    && (FinishesAll(ss, ways) ==> ThenAll(ss, low, scripts) == WayThenAll(ss, low, ways))
  }

  ghost predicate AreRounds(names: seq<string>, body: seq<Stmt>, scope: Scope, low: Frames, ways: seq<Round>,
          rounds: seq<Round>) {
    && |rounds| == |ways|
    && AllTypedVisits(VisitsRounds(names, body, scope, low, rounds))
    && (AllHold(VisitsRounds(names, body, scope, low, rounds)) <==> WayFineRounds(names, body, scope, low, ways))
    && (forall i :: 0 <= i < |ways| ==> (FinishesAll(body, rounds[i].scripts) <==> FinishesAll(body, ways[i].scripts)))
    && (RoundsFinish(body, ways) ==> ThenRounds(names, body, low, rounds) == WayRounds(names, body, low, ways))
  }

  predicate RoundsFinish(body: seq<Stmt>, rounds: seq<Round>) {
    forall i :: 0 <= i < |rounds| ==> FinishesAll(body, rounds[i].scripts)
  }

  lemma {:induction false} RunOf(s: Stmt, scope: Scope, low: Frames, way: Script) returns (script: Script)
    requires WaySharp(s, low, way)
    ensures IsWay(s, scope, low, way, script)
    decreases s, 1, 0
  {
    hide Sharp, Typed, AllTypedVisits, AllHold, Visit.Holds, Visible, Values, LowOf, LowHolds, Bind, Define, Set;
    hide WaySharpAll, WayFineAll, VisitsAll, ThenAll, WayThenAll, FinishesAll, WaySharpRounds, VisitsRounds;
    hide ThenRounds, WayRounds, WayFineRounds, ValOf;
    match s
    case Assign(target, e) =>
      var o: Outside :| Sharp(target, Visible(low), o) && Sharp(e, Visible(low), o);
      script := Once(o);
      SharpVisit(target, scope, low, script);
      SharpVisit(e, scope, low, script);
      var first, second := Seen(target, scope, low, script), Seen(e, scope, low, script);
      assert Visits(s, scope, low, script) == [first] + [second];
      OneVisit(first);
      OneVisit(second);
      AppendTyped([first], [second]);
      AppendHolds([first], [second]);
    case Let(_, _, _) => script := OneRun(s, scope, low, way);
    case LetTuple(_, _) => script := OneRun(s, scope, low, way);
    case Evaluate(_) => script := OneRun(s, scope, low, way);
    case If(_, _, _) => script := IfRunOf(s, scope, low, way);
    case Fixed(_, _, _, _) =>
      var branch := AllRunsOf(Live(s), LiveScope(s, scope), low, way.branch);
      script := Script(NOTHING, true, branch, []);
    case For(_, _, _) => script := ForRunOf(s, scope, low, way);
  }

  lemma OneRun(s: Stmt, scope: Scope, low: Frames, way: Script) returns (script: Script)
    requires IsOne(s) && WaySharp(s, low, way)
    ensures IsWay(s, scope, low, way, script)
  {
    hide Sharp, Typed, AllTypedVisits, AllHold, Visit.Holds, Visible, Values, LowOf, LowHolds, Bind, Define;
    assert CanBeSharp(Only(s), Visible(low));
    var o: Outside :| Sharp(Only(s), Visible(low), o);
    script := Once(o);
    SharpVisit(Only(s), scope, low, script);
    OneVisit(Seen(Only(s), scope, low, script));
  }

  lemma {:induction false} IfRunOf(s: Stmt, scope: Scope, low: Frames, way: Script) returns (script: Script)
    requires s.If? && WaySharp(s, low, way)
    ensures IsWay(s, scope, low, way, script)
    decreases s, 0, 0
  {
    hide Sharp, Typed, AllTypedVisits, AllHold, Visit.Holds, Visible, Values, LowHolds, WaySharpAll, WayFineAll;
    hide VisitsAll, ThenAll, WayThenAll, FinishesAll, AfterAll, Popped;
    var o: Outside :| Sharp(s.cond, Visible(low), o);
    var start := if way.taken then scope else AfterAll(s.then_, scope);
    var code := if way.taken then s.then_ else s.else_;
    var branch := AllRunsOf(code, start, low + [map[]], way.branch);
    script := Script(o, way.taken, branch, []);
    var first := [Seen(s.cond, scope, low, script)];
    SharpVisit(s.cond, scope, low, script);
    OneVisit(first[0]);
    var rest := VisitsAll(code, start, low + [map[]], branch);
    assert Visits(s, scope, low, script) == first + rest;
    AppendTyped(first, rest);
    AppendHolds(first, rest);
  }

  lemma {:induction false} ForRunOf(s: Stmt, scope: Scope, low: Frames, way: Script) returns (script: Script)
    requires s.For? && WaySharp(s, low, way)
    ensures IsWay(s, scope, low, way, script)
    decreases s, 0, 0
  {
    hide Sharp, Typed, AllTypedVisits, AllHold, Visit.Holds, Visible, Values, LowHolds, WaySharpRounds, WayFineRounds;
    hide VisitsRounds, ThenRounds, WayRounds, FinishesAll;
    var o: Outside :| Sharp(s.iterable, Visible(low), o);
    var inside := Untyped(scope, NameSet(s.names));
    var rounds := RoundsOf(s.names, s.body, inside, low, way.rounds);
    script := Script(o, true, [], rounds);
    var first := [Seen(s.iterable, scope, low, script)];
    SharpVisit(s.iterable, scope, low, script);
    OneVisit(first[0]);
    var rest := VisitsRounds(s.names, s.body, inside, low, rounds);
    AppendTyped(first, rest);
    AppendHolds(first, rest);
  }

  lemma {:induction false} RoundsOf(names: seq<string>, body: seq<Stmt>, scope: Scope, low: Frames, ways: seq<Round>)
    returns (rounds: seq<Round>)
    requires WaySharpRounds(names, body, low, ways)
    ensures AreRounds(names, body, scope, low, ways, rounds)
    decreases body, 1, |ways|
  {
    hide AllTypedVisits, AllHold, WaySharpAll, WayFineAll, VisitsAll, ThenAll, WayThenAll, FinishesAll, Popped, Items;
    NothingTyped();
    NothingHolds();
    if |ways| == 0 {
      rounds := [];
    } else {
      var start := RoundStart(names, low);
      var scripts := AllRunsOf(body, scope, start, ways[0].scripts);
      rounds := [Round(Plain, scripts)];
      var now := VisitsAll(body, scope, start, scripts);
      var later := [];
      if FinishesAll(body, scripts) {
        var next := Popped(WayThenAll(body, start, ways[0].scripts));
        var others := RoundsOf(names, body, scope, next, ways[1..]);
        rounds := rounds + others;
        later := VisitsRounds(names, body, scope, next, others);
        assert rounds[1..] == others;
        RoundsOn(body, Round(Plain, scripts), others, ways);
      } else {
        rounds := rounds + ways[1..];
        assert rounds[1..] == ways[1..];
      }
      assert VisitsRounds(names, body, scope, low, rounds) == now + later;
      AppendTyped(now, later);
      AppendHolds(now, later);
    }
  }

  lemma RoundsOn(body: seq<Stmt>, first: Round, others: seq<Round>, ways: seq<Round>)
    requires |ways| == |others| + 1 && (FinishesAll(body, first.scripts) <==> FinishesAll(body, ways[0].scripts))
    requires forall i :: 0 <= i < |others| ==>
      (FinishesAll(body, others[i].scripts) <==> FinishesAll(body, ways[1..][i].scripts))
    ensures var rounds := [first] + others;
      && (forall i :: 0 <= i < |ways| ==>
            (FinishesAll(body, rounds[i].scripts) <==> FinishesAll(body, ways[i].scripts)))
      && (RoundsFinish(body, ways) ==> RoundsFinish(body, ways[1..]))
  {
    hide FinishesAll;
    forall i | 0 <= i < |ways|
      ensures FinishesAll(body, ([first] + others)[i].scripts) <==> FinishesAll(body, ways[i].scripts)
    {
      if i > 0 { assert ways[1..][i - 1] == ways[i]; }
    }
  }

  lemma {:induction false} AllRunsOf(ss: seq<Stmt>, scope: Scope, low: Frames, ways: seq<Script>)
    returns (scripts: seq<Script>)
    requires WaySharpAll(ss, low, ways)
    ensures AreWays(ss, scope, low, ways, scripts)
    decreases ss, 0, 0
  {
    hide AllTypedVisits, AllHold, Visits, After, Then, Finishes, WayThen, WaySharp, WayFine;
    NothingTyped();
    NothingHolds();
    if |ss| == 0 || |ways| == 0 {
      scripts := ways;
    } else {
      var s, way := ss[0], ways[0];
      var script := RunOf(s, scope, low, way);
      var now := Visits(s, scope, low, script);
      var later := [];
      if Finishes(s, way) {
        var others := AllRunsOf(ss[1..], After(s, scope), WayThen(s, low, way), ways[1..]);
        scripts := [script] + others;
        later := VisitsAll(ss[1..], After(s, scope), WayThen(s, low, way), others);
        assert scripts[1..] == others;
      } else {
        scripts := [script] + ways[1..];
      }
      assert VisitsAll(ss, scope, low, scripts) == now + later;
      AppendTyped(now, later);
      AppendHolds(now, later);
    }
  }

  // ----- both directions -----

  ghost predicate EveryWayFine(ss: seq<Stmt>, scope: Scope, low: Frames) {
    forall ways: seq<Script> :: WayFineAll(ss, scope, low, ways)
  }

  ghost predicate EveryWaySharp(ss: seq<Stmt>, low: Frames) {
    forall ways: seq<Script> :: WaySharpAll(ss, low, ways)
  }

  /** For every program: no run over-counts if along every way the depths hold of the least
      values there, and only then if the world outside the model can be the least. */
  lemma ExactlyWhenEveryWay(ss: seq<Stmt>, scope: Scope, low: Frames)
    requires |low| > 0
    ensures EveryWayFine(ss, scope, low) ==> EveryRunHolds(ss, scope, low)
    ensures EveryWaySharp(ss, low) ==> (EveryWayFine(ss, scope, low) <==> EveryRunHolds(ss, scope, low))
  {
    hide Beneath, AllTypedVisits, AllHold, VisitsAll, WayFineAll, WaySharpAll, ThenAll, WayThenAll, FinishesAll;
    if EveryWayFine(ss, scope, low) {
      forall frames: Frames, scripts: seq<Script> |
        Beneath(low, frames) && AllTypedVisits(VisitsAll(ss, scope, frames, scripts))
        ensures AllHold(VisitsAll(ss, scope, frames, scripts))
      {
        AllWaysBelow(ss, scope, low, frames, scripts);
      }
    } else if EveryWaySharp(ss, low) {
      var ways: seq<Script> :| !WayFineAll(ss, scope, low, ways);
      var scripts := AllRunsOf(ss, scope, low, ways);
      BeneathItself(low);
      assert !AllHold(VisitsAll(ss, scope, low, scripts));
    }
  }

  // ----- programs without loops -----

  predicate LoopFree(s: Stmt)
    decreases s, 1
  {
    match s
    case If(_, a, b) => AllLoopFree(a) && AllLoopFree(b)
    case Fixed(_, holds, a, b) => AllLoopFree(if holds then a else b)
    case For(_, _, _) => false
    case _ => true
  }

  predicate AllLoopFree(ss: seq<Stmt>)
    decreases ss, 0
  {
    |ss| == 0 || (LoopFree(ss[0]) && AllLoopFree(ss[1..]))
  }

  /** The least values after a statement, for every way through it. */
  function Ends(s: Stmt, low: Frames): set<Frames>
    requires LoopFree(s)
    decreases s, 1
  {
    match s
    case If(_, a, b) =>
      var inner := low + [map[]];
      (set e | e in EndsAll(a, inner) :: Popped(e)) + (set e | e in EndsAll(b, inner) :: Popped(e))
    case Fixed(_, holds, a, b) => EndsAll(if holds then a else b, low)
    case _ => {LowAfter(s, low)}
  }

  function EndsAll(ss: seq<Stmt>, low: Frames): set<Frames>
    requires AllLoopFree(ss)
    decreases ss, 0
  {
    if |ss| == 0 then {low} else set e, f | e in Ends(ss[0], low) && f in EndsAll(ss[1..], e) :: f
  }

  /** The depths hold of each of these, where it comes to: a finite condition. */
  predicate EachFine(s: Stmt, scope: Scope, low: Frames)
    requires LoopFree(s)
    decreases s, 1
  {
    match s
    case If(c, a, b) =>
      && LowHolds(c, scope, Visible(low))
      && AllEachFine(a, scope, low + [map[]]) && AllEachFine(b, AfterAll(a, scope), low + [map[]])
    case Fixed(_, holds, a, b) => if holds then AllEachFine(a, scope, low) else AllEachFine(b, AfterAll(a, scope), low)
    case _ => Fine(s, scope, low)
  }

  predicate AllEachFine(ss: seq<Stmt>, scope: Scope, low: Frames)
    requires AllLoopFree(ss)
    decreases ss, 0
  {
    |ss| == 0 ||
    (EachFine(ss[0], scope, low) && forall e :: e in Ends(ss[0], low) ==> AllEachFine(ss[1..], After(ss[0], scope), e))
  }

  lemma {:induction false} WayEnds(s: Stmt, low: Frames, way: Script)
    requires LoopFree(s) && Finishes(s, way)
    ensures WayThen(s, low, way) in Ends(s, low)
    decreases s, 1
  {
    hide LowOf, Visible, Popped, EndsAll, WayThenAll, FinishesAll, AllLoopFree;
    match s
    case If(_, a, b) =>
      if way.taken { WaysEnd(a, low + [map[]], way.branch); } else { WaysEnd(b, low + [map[]], way.branch); }
    case Fixed(_, _, _, _) => WaysEnd(Live(s), low, way.branch);
    case _ =>
  }

  lemma {:induction false} WaysEnd(ss: seq<Stmt>, low: Frames, ways: seq<Script>)
    requires AllLoopFree(ss) && FinishesAll(ss, ways)
    ensures WayThenAll(ss, low, ways) in EndsAll(ss, low)
    decreases ss, 0
  {
    hide Ends, WayThen, LoopFree, Finishes;
    if |ss| > 0 {
      WayEnds(ss[0], low, ways[0]);
      WaysEnd(ss[1..], WayThen(ss[0], low, ways[0]), ways[1..]);
    }
  }

  lemma {:induction false} WayTo(s: Stmt, low: Frames, end: Frames) returns (way: Script)
    requires LoopFree(s) && end in Ends(s, low)
    ensures Finishes(s, way) && WayThen(s, low, way) == end
    decreases s, 1
  {
    hide LowOf, Visible, Popped, EndsAll, WayThenAll, FinishesAll, AllLoopFree;
    way := Once(NOTHING);
    match s
    case If(_, a, b) =>
      var inner := low + [map[]];
      if end in (set e | e in EndsAll(a, inner) :: Popped(e)) {
        var e :| e in EndsAll(a, inner) && Popped(e) == end;
        var branch := WaysTo(a, inner, e);
        way := Script(NOTHING, true, branch, []);
      } else {
        var e :| e in EndsAll(b, inner) && Popped(e) == end;
        var branch := WaysTo(b, inner, e);
        way := Script(NOTHING, false, branch, []);
      }
    case Fixed(_, _, _, _) =>
      var branch := WaysTo(Live(s), low, end);
      way := Script(NOTHING, true, branch, []);
    case _ =>
  }

  lemma {:induction false} WaysTo(ss: seq<Stmt>, low: Frames, end: Frames) returns (ways: seq<Script>)
    requires AllLoopFree(ss) && end in EndsAll(ss, low)
    ensures FinishesAll(ss, ways) && WayThenAll(ss, low, ways) == end
    decreases ss, 0
  {
    hide Ends, WayThen, LoopFree, Finishes;
    if |ss| == 0 {
      ways := [];
    } else {
      var e, f :| e in Ends(ss[0], low) && f in EndsAll(ss[1..], e) && f == end;
      var way := WayTo(ss[0], low, e);
      var others := WaysTo(ss[1..], e, end);
      ways := [way] + others;
      assert ways[1..] == others;
    }
  }

  lemma {:induction false} EachWayFine(s: Stmt, scope: Scope, low: Frames, way: Script)
    requires LoopFree(s) && EachFine(s, scope, low)
    ensures WayFine(s, scope, low, way)
    decreases s, 1
  {
    hide LowHolds, Visible, AllEachFine, WayFineAll, AllLoopFree, AfterAll;
    match s
    case If(_, a, b) =>
      if way.taken { EachWaysFine(a, scope, low + [map[]], way.branch); }
      else { EachWaysFine(b, AfterAll(a, scope), low + [map[]], way.branch); }
    case Fixed(_, _, _, _) => EachWaysFine(Live(s), LiveScope(s, scope), low, way.branch);
    case _ =>
  }

  lemma {:induction false} EachWaysFine(ss: seq<Stmt>, scope: Scope, low: Frames, ways: seq<Script>)
    requires AllLoopFree(ss) && AllEachFine(ss, scope, low)
    ensures WayFineAll(ss, scope, low, ways)
    decreases ss, 0
  {
    hide EachFine, WayFine, LoopFree, Finishes, WayThen, Ends, After;
    if |ss| > 0 && |ways| > 0 {
      EachWayFine(ss[0], scope, low, ways[0]);
      if Finishes(ss[0], ways[0]) {
        WayEnds(ss[0], low, ways[0]);
        EachWaysFine(ss[1..], After(ss[0], scope), WayThen(ss[0], low, ways[0]), ways[1..]);
      }
    }
  }

  lemma {:induction false} BadWay(s: Stmt, scope: Scope, low: Frames) returns (way: Script)
    requires LoopFree(s) && !EachFine(s, scope, low)
    ensures !WayFine(s, scope, low, way)
    decreases s, 1
  {
    hide LowHolds, Visible, AllEachFine, WayFineAll, AllLoopFree, AfterAll;
    way := Once(NOTHING);
    match s
    case If(c, a, b) =>
      if LowHolds(c, scope, Visible(low)) {
        if !AllEachFine(a, scope, low + [map[]]) {
          var branch := BadWays(a, scope, low + [map[]]);
          way := Script(NOTHING, true, branch, []);
        } else {
          var branch := BadWays(b, AfterAll(a, scope), low + [map[]]);
          way := Script(NOTHING, false, branch, []);
        }
      }
    case Fixed(_, _, _, _) =>
      var branch := BadWays(Live(s), LiveScope(s, scope), low);
      way := Script(NOTHING, true, branch, []);
    case _ =>
  }

  lemma {:induction false} BadWays(ss: seq<Stmt>, scope: Scope, low: Frames) returns (ways: seq<Script>)
    requires AllLoopFree(ss) && !AllEachFine(ss, scope, low)
    ensures !WayFineAll(ss, scope, low, ways)
    decreases ss, 0
  {
    hide EachFine, WayFine, LoopFree, Finishes, WayThen, Ends, After;
    if !EachFine(ss[0], scope, low) {
      var way := BadWay(ss[0], scope, low);
      ways := [way];
    } else {
      var e :| e in Ends(ss[0], low) && !AllEachFine(ss[1..], After(ss[0], scope), e);
      var way := WayTo(ss[0], low, e);
      var others := BadWays(ss[1..], After(ss[0], scope), e);
      ways := [way] + others;
      assert ways[1..] == others;
    }
  }

  /** Without loops the finite condition is exact, the branches comparable or not. */
  lemma ExactlyWithoutLoops(ss: seq<Stmt>, scope: Scope, low: Frames)
    requires |low| > 0 && AllLoopFree(ss)
    ensures AllEachFine(ss, scope, low) <==> EveryWayFine(ss, scope, low)
    ensures EveryWaySharp(ss, low) ==> (AllEachFine(ss, scope, low) <==> EveryRunHolds(ss, scope, low))
  {
    hide AllEachFine, WayFineAll, EveryRunHolds, EveryWaySharp, AllLoopFree;
    if AllEachFine(ss, scope, low) {
      forall ways: seq<Script> ensures WayFineAll(ss, scope, low, ways) {
        EachWaysFine(ss, scope, low, ways);
      }
    } else {
      var ways := BadWays(ss, scope, low);
    }
    ExactlyWhenEveryWay(ss, scope, low);
  }
}
