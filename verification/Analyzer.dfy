/** The analyzer over type objects: scopes and results share them, so a depth that is set
    on one is set on every name that has it. Only fresh copies are ever set: a check
    leaves the type of every name in scope as it was. The methods are proved to compute
    the types of `Depth` and to report the depths it lists, in order, each one once,
    those over the maximum as errors. */
module Analyzer {
  import opened Depth
  import opened DepthRuns
  import opened ChebyshevDegree

  class NbType {
    var kind: Kind
    var hidden: bool
    var depth: nat
    var needsRelin: bool

    constructor (t: Ty)
      ensures Value() == t && !needsRelin
    {
      kind, hidden, depth, needsRelin := t.kind, t.hidden, t.depth, false;
    }

    function Value(): Ty
      reads this`kind, this`hidden, this`depth
    {
      Ty(kind, hidden, depth)
    }

    method Copy() returns (t: NbType)
      ensures fresh(t) && t.Value() == Value()
    {
      t := new NbType(Value());
      t.needsRelin := needsRelin;
    }
  }

  type Symbols = map<string, NbType>

  /** What every enclosing table defines, the innermost on top. */
  function Flat(tables: seq<Symbols>): Symbols {
    if |tables| == 0 then map[] else Flat(tables[..|tables| - 1]) + tables[|tables| - 1]
  }

  lemma FlatPush(tables: seq<Symbols>, more: Symbols)
    ensures Flat(tables + [more]) == Flat(tables) + more
  {
    assert (tables + [more])[..|tables|] == tables;
  }

  lemma FlatDefine(tables: seq<Symbols>, x: string, t: NbType)
    requires |tables| > 0
    ensures Flat(tables[|tables| - 1 := tables[|tables| - 1][x := t]]) == Flat(tables)[x := t]
  {
    var now := tables[|tables| - 1 := tables[|tables| - 1][x := t]];
    assert now[..|now| - 1] == tables[..|tables| - 1];
  }

  lemma {:induction false} InFlat(tables: seq<Symbols>, x: string)
    requires |tables| > 0
    ensures x in tables[|tables| - 1] ==> x in Flat(tables) && Flat(tables)[x] == tables[|tables| - 1][x]
    ensures x !in tables[|tables| - 1] ==>
      (x in Flat(tables) <==> x in Flat(tables[..|tables| - 1])) &&
      (x in Flat(tables) ==> Flat(tables)[x] == Flat(tables[..|tables| - 1])[x])
  {}

  function MaxOf(first: nat, depths: seq<nat>): nat {
    if |depths| == 0 then first else Max(MaxOf(first, depths[..|depths| - 1]), depths[|depths| - 1])
  }

  /** The depths over the limit: errors for products, warnings for chebyshev calls. */
  function Over(limit: nat, depths: seq<nat>): seq<nat> {
    if |depths| == 0 then []
    else
      Over(limit, depths[..|depths| - 1]) +
      (if depths[|depths| - 1] > limit then [depths[|depths| - 1]] else [])
  }

  lemma MaxOfAppend(first: nat, a: seq<nat>, b: seq<nat>)
    ensures MaxOf(first, a + b) == MaxOf(MaxOf(first, a), b)
  {
    if |b| == 0 {
      assert a + b == a;
    } else {
      MaxOfAppend(first, a, b[..|b| - 1]);
      assert (a + b)[..|a + b| - 1] == a + b[..|b| - 1];
    }
  }

  lemma OverAppend(limit: nat, a: seq<nat>, b: seq<nat>)
    ensures Over(limit, a + b) == Over(limit, a) + Over(limit, b)
  {
    if |b| == 0 {
      assert a + b == a;
    } else {
      OverAppend(limit, a, b[..|b| - 1]);
      assert (a + b)[..|a + b| - 1] == a + b[..|b| - 1];
    }
  }

  class SemanticAnalyzer {
    const maxDepth: nat
    const f64: NbType
    const u32: NbType
    const boolean: NbType
    const unknown: NbType
    var tables: seq<Symbols>
    var observed: nat
    var reports: seq<nat>

    constructor (maxDepth: nat)
      ensures Valid() && this.maxDepth == maxDepth && Known() == map[] && observed == 0 && reports == []
    {
      this.maxDepth := maxDepth;
      f64 := new NbType(FLOAT);
      u32 := new NbType(INT);
      boolean := new NbType(BOOL);
      unknown := new NbType(UNKNOWN);
      tables, observed, reports := [map[]], 0, [];
    }

    /** The shared types are what they are named. */
    ghost predicate Valid()
      reads this, f64, u32, boolean, unknown
    {
      && f64.Value() == FLOAT && u32.Value() == INT && boolean.Value() == BOOL && unknown.Value() == UNKNOWN
      && |tables| > 0
    }

    ghost function Types(): set<NbType>
      reads this`tables
    {
      set x | x in Flat(tables) :: Flat(tables)[x]
    }

    /** The scope as the analyzer sees it: every visible name's type and depth. */
    ghost function Known(): Scope
      reads this`tables, Types()`kind, Types()`hidden, Types()`depth
    {
      map x | x in Flat(tables) :: Flat(tables)[x].Value()
    }

    /** No name's type changed, so neither did what the analyzer knows. */
    twostate lemma KnownKept(flat: Symbols)
      requires tables == old(tables) && flat == Flat(tables)
      requires forall x :: x in flat ==> flat[x].Value() == old(flat[x].Value())
      ensures Known() == old(Known())
    {}

    method Lookup(x: string) returns (t: NbType)
      requires Valid()
      ensures x in Flat(tables) ==> t == Flat(tables)[x]
      ensures x !in Flat(tables) ==> t == unknown
    {
      var i := |tables|;
      assert tables[..|tables|] == tables;
      while i > 0
        invariant 0 <= i <= |tables|
        invariant x in Flat(tables) <==> x in Flat(tables[..i])
        invariant x in Flat(tables) ==> Flat(tables)[x] == Flat(tables[..i])[x]
      {
        InFlat(tables[..i], x);
        assert tables[..i][..i - 1] == tables[..i - 1];
        i := i - 1;
        if x in tables[i] {
          return tables[i][x];
        }
      }
      return unknown;
    }

    method Common(a: NbType, b: NbType) returns (r: NbType)
      requires Valid()
      ensures r.Value() == CommonType(a.Value(), b.Value())
      ensures fresh(r) || r == f64 || r == unknown
      ensures r.Value().Encrypted() ==> fresh(r)
    {
      if a.kind == Enc {
        r := a.Copy();
      } else if b.kind == Enc {
        r := b.Copy();
      } else if a.kind == Float || b.kind == Float {
        r := f64;
      } else if a.kind == Int && b.kind == Int {
        r := new NbType(INT);
      } else {
        r := unknown;
      }
    }

    method Report(depth: nat)
      modifies this`observed, this`reports
      ensures observed == Max(old(observed), depth)
      ensures reports == old(reports) + (if depth > maxDepth then [depth] else [])
    {
      observed := Max(observed, depth);
      if depth > maxDepth {
        reports := reports + [depth];
      }
    }

    /** A product's own depth, on the fresh copy that is its type. */
    method CheckBinary(op: BinOp, left: NbType, right: NbType) returns (t: NbType)
      requires Valid()
      modifies this`observed, this`reports, f64`needsRelin, unknown`needsRelin
      ensures t.Value() == BinaryType(op, left.Value(), right.Value())
      ensures var own := if op == Times && t.Value().Encrypted() then [t.depth] else [];
        Tells(old(observed), old(reports), observed, reports, maxDepth, own)
    {
      if op == Compare {
        return boolean;
      }
      t := Common(left, right);
      if op == TimesNoRelin {
        t.needsRelin := true;
        return;
      }
      if op == Times && t.Value().Encrypted() {
        t.depth := Max(left.depth, right.depth) + 1;
        Report(t.depth);
        TellsOne(old(observed), old(reports), maxDepth, t.depth);
      }
    }

    /** _check_expr: the type is the specification's, every modelled operation inside is
        reported, and no type that a name had changes its depth. */
    method CheckExpr(e: Expr) returns (t: NbType)
      requires Valid()
      modifies this`observed, this`reports, f64`needsRelin, unknown`needsRelin
      ensures t.Value() == TypeOf(e, old(Known())) && Known() == old(Known())
      ensures Tells(old(observed), old(reports), observed, reports, maxDepth, DepthsIn(e, old(Known())))
      decreases e, 1
    {
      hide Tells, ChebyshevType, BinaryType, DepthForDegree;
      match e {
        case IntLit => t := u32; TellsNothing(observed, reports, maxDepth);
        case FloatLit => t := f64; TellsNothing(observed, reports, maxDepth);
        case Ident(x) =>
          t := Lookup(x);
          assert x in Flat(tables) <==> x in Known();
          TellsNothing(observed, reports, maxDepth);
        case Binary(op, l, r) => t := CheckOperands(op, l, r);
        case Not(o) =>
          var operand := CheckExpr(o);
          t := boolean;
        case Negate(o) => t := CheckExpr(o);
        case Cast(o, target) =>
          var operand := CheckExpr(o);
          t := new NbType(target);
        case Chebyshev(id, args, input, degree, returned) => t := CheckChebyshev(id, args, input, degree, returned);
        case Call(_, args, returned) =>
          var types := CheckArgs(args);
          t := new NbType(returned);
        case Opaque(_, parts) =>
          var types := CheckArgs(parts);
          t := unknown;
      }
      KnownKept(Flat(tables));
    }

    method CheckOperands(op: BinOp, l: Expr, r: Expr) returns (t: NbType)
      requires Valid()
      modifies this`observed, this`reports, f64`needsRelin, unknown`needsRelin
      ensures t.Value() == TypeOf(Binary(op, l, r), old(Known())) && Known() == old(Known())
      ensures Tells(old(observed), old(reports), observed, reports, maxDepth, DepthsIn(Binary(op, l, r), old(Known())))
      decreases Binary(op, l, r), 0
    {
      hide Tells, BinaryType, SemanticAnalyzer.Known;
      ghost var scope := Known();
      var left := CheckExpr(l);
      ghost var o1, r1 := observed, reports;
      var right := CheckExpr(r);
      ghost var o2, r2 := observed, reports;
      t := CheckBinary(op, left, right);
      ghost var own := if op == Times && t.Value().Encrypted() then [t.depth] else [];
      TellsBoth(old(observed), old(reports), o1, r1, o2, r2, maxDepth, DepthsIn(l, scope), DepthsIn(r, scope));
      TellsBoth(old(observed), old(reports), o2, r2, observed, reports, maxDepth,
          DepthsIn(l, scope) + DepthsIn(r, scope), own);
      KnownKept(Flat(tables));
    }

    method CheckArgs(es: seq<Expr>) returns (types: seq<NbType>)
      requires Valid()
      modifies this`observed, this`reports, f64`needsRelin, unknown`needsRelin
      ensures |types| == |es| && Known() == old(Known())
      ensures forall i :: 0 <= i < |es| ==> types[i].Value() == TypesOf(es, old(Known()))[i]
      ensures Tells(old(observed), old(reports), observed, reports, maxDepth, DepthsInAll(es, old(Known())))
      decreases es, 1
    {
      hide Tells, TypeOf, DepthsIn;
      if |es| == 0 {
        TellsNothing(observed, reports, maxDepth);
        return [];
      }
      ghost var scope := Known();
      var first := CheckExpr(es[0]);
      ghost var o1, r1 := observed, reports;
      var rest := CheckArgs(es[1..]);
      TellsBoth(old(observed), old(reports), o1, r1, observed, reports, maxDepth, DepthsIn(es[0], scope),
          DepthsInAll(es[1..], scope));
      types := [first] + rest;
    }

    /** The type of a chebyshev call of known degree: its input's depth and its own levels. */
    method ChebyshevResult(types: seq<NbType>, input: Option<nat>, used: nat) returns (t: NbType)
      requires Valid()
      modifies this`observed, this`reports
      ensures fresh(t)
      ensures t.Value()
           == Ty(Enc, true, (if input.Some? && input.value < |types| then types[input.value].depth else 0) + used)
      ensures Tells(old(observed), old(reports), observed, reports, maxDepth, [t.depth])
    {
      var inDepth := 0;
      if input.Some? && input.value < |types| {
        inDepth := types[input.value].depth;
      }
      t := new NbType(Ty(Enc, true, 0));
      t.depth := inDepth + used;
      Report(t.depth);
      TellsOne(old(observed), old(reports), maxDepth, t.depth);
    }

    method CheckChebyshev(id: nat, args: seq<Expr>, input: Option<nat>, degree: Option<nat>, returned: Ty)
      returns (t: NbType)
      requires Valid()
      modifies this`observed, this`reports, f64`needsRelin, unknown`needsRelin
      ensures t.Value() == TypeOf(Chebyshev(id, args, input, degree, returned), old(Known())) && Known() == old(Known())
      ensures Tells(old(observed), old(reports), observed, reports, maxDepth,
                    DepthsIn(Chebyshev(id, args, input, degree, returned), old(Known())))
      decreases Chebyshev(id, args, input, degree, returned), 0
    {
      hide Tells, DepthForDegree, DepthsInAll, SemanticAnalyzer.Known;
      ghost var scope := Known();
      var types := CheckArgs(args);
      ghost var o1, r1 := observed, reports;
      ghost var inside := DepthsInAll(args, scope);
      if degree.Some? && degree.value > 0 {
        t := ChebyshevResult(types, input, DepthForDegree(degree.value));
        TellsBoth(old(observed), old(reports), o1, r1, observed, reports, maxDepth, inside, [t.depth]);
      } else {
        t := new NbType(returned);
        assert inside + [] == inside;
      }
      KnownKept(Flat(tables));
    }

    // ----- statements -----

    method Define(x: string, t: NbType)
      requires Valid()
      modifies this`tables
      ensures Valid() && Known() == old(Known())[x := t.Value()]
      ensures SameButInner(old(tables), tables)
    {
      FlatDefine(tables, x, t);
      hide Flat;
      tables := tables[|tables| - 1 := tables[|tables| - 1][x := t]];
    }

    method DefineUnknown(names: seq<string>, wildcard: bool)
      requires Valid()
      modifies this`tables
      ensures Valid() && SameButInner(old(tables), tables)
      ensures Known() == Untyped(old(Known()), if wildcard then Named(names) else NameSet(names))
    {
      ghost var scope := Known();
      assert Untyped(scope, Taken(names[..0], wildcard)) == scope;
      for i := 0 to |names|
        invariant Valid() && SameButInner(old(tables), tables)
        invariant Known() == Untyped(scope, Taken(names[..i], wildcard))
      {
        TakenMore(scope, names, i, wildcard);
        if !wildcard || names[i] != "_" {
          Define(names[i], unknown);
        }
      }
      assert names[..|names|] == names;
    }

    /** _check_stmt: the scope afterwards, and every depth in the statement reported. */
    method CheckStmt(s: Stmt)
      requires Valid()
      modifies this`tables, this`observed, this`reports, f64`needsRelin, unknown`needsRelin
      ensures Valid() && Known() == After(s, old(Known())) && SameButInner(old(tables), tables)
      ensures Tells(old(observed), old(reports), observed, reports, maxDepth, StmtDepths(s, old(Known())))
      decreases s, 1
    {
      hide Tells, SemanticAnalyzer.Known, TypeOf, DepthsIn;
      match s {
        case Let(x, e, _) =>
          var t := CheckExpr(e);
          Define(x, t);
        case LetTuple(names, e) =>
          var t := CheckExpr(e);
          DefineUnknown(names, true);
        case Assign(target, e) =>
          ghost var scope := Known();
          var t := CheckExpr(target);
          ghost var o1, r1 := observed, reports;
          t := CheckExpr(e);
          TellsBoth(old(observed), old(reports), o1, r1, observed, reports, maxDepth,
              DepthsIn(target, scope), DepthsIn(e, scope));
        case Evaluate(e) => var t := CheckExpr(e);
        case If(_, _, _) => CheckIf(s);
        case Fixed(_, _, _, _) => CheckIf(s);
        case For(names, iterable, body) => CheckFor(names, iterable, body);
      }
    }

    method CheckIf(s: Stmt)
      requires Valid() && (s.If? || s.Fixed?)
      modifies this`tables, this`observed, this`reports, f64`needsRelin, unknown`needsRelin
      ensures Valid() && Known() == After(s, old(Known())) && SameButInner(old(tables), tables)
      ensures Tells(old(observed), old(reports), observed, reports, maxDepth, StmtDepths(s, old(Known())))
      decreases s, 0
    {
      hide Tells, SemanticAnalyzer.Known, DepthsIn, AfterAll, BlockDepths;
      ghost var scope := Known();
      var c, a, b := s.cond, s.then_, s.else_;
      var t := CheckExpr(c);
      ghost var o1, r1 := observed, reports;
      CheckBlock(a);
      ghost var o2, r2 := observed, reports;
      CheckBlock(b);
      TellsBoth(old(observed), old(reports), o1, r1, o2, r2, maxDepth, DepthsIn(c, scope), BlockDepths(a, scope));
      TellsBoth(old(observed), old(reports), o2, r2, observed, reports, maxDepth,
                DepthsIn(c, scope) + BlockDepths(a, scope), BlockDepths(b, AfterAll(a, scope)));
    }

    method CheckFor(names: seq<string>, iterable: Expr, body: seq<Stmt>)
      requires Valid()
      modifies this`tables, this`observed, this`reports, f64`needsRelin, unknown`needsRelin
      ensures Valid() && Known() == old(Known()) && tables == old(tables)
      ensures Tells(old(observed), old(reports), observed, reports, maxDepth,
          StmtDepths(For(names, iterable, body), old(Known())))
      decreases For(names, iterable, body), 0
    {
      hide Tells, DepthsIn, BlockDepths, SemanticAnalyzer.Known;
      ghost var scope := Known();
      var t := CheckExpr(iterable);
      ghost var o1, r1 := observed, reports;
      CheckLoopBody(names, body);
      TellsBoth(old(observed), old(reports), o1, r1, observed, reports, maxDepth,
                DepthsIn(iterable, scope), BlockDepths(body, Untyped(scope, NameSet(names))));
    }

    /** A child table for the loop's names and the body's lets, gone afterwards. */
    method CheckLoopBody(names: seq<string>, body: seq<Stmt>)
      requires Valid()
      modifies this`tables, this`observed, this`reports, f64`needsRelin, unknown`needsRelin
      ensures Valid() && Known() == old(Known()) && tables == old(tables)
      ensures Tells(old(observed), old(reports), observed, reports, maxDepth,
          BlockDepths(body, Untyped(old(Known()), NameSet(names))))
      decreases body, 1
    {
      hide Tells, BlockDepths, SemanticAnalyzer.Known, AfterAll, Untyped, NameSet, Flat;
      PushChild();
      DefineUnknown(names, false);
      CheckBlock(body);
      tables := tables[..|tables| - 1];
      assert tables == old(tables);
      KnownKept(Flat(tables));
    }

    method PushChild()
      requires Valid()
      modifies this`tables
      ensures Valid() && Known() == old(Known()) && tables == old(tables) + [map[]]
    {
      FlatPush(tables, map[]);
      tables := tables + [map[]];
    }

    method CheckBlock(ss: seq<Stmt>)
      requires Valid()
      modifies this`tables, this`observed, this`reports, f64`needsRelin, unknown`needsRelin
      ensures Valid() && Known() == AfterAll(ss, old(Known())) && SameButInner(old(tables), tables)
      ensures Tells(old(observed), old(reports), observed, reports, maxDepth, BlockDepths(ss, old(Known())))
      decreases ss, 0
    {
      hide Tells, SemanticAnalyzer.Known, After, StmtDepths;
      if |ss| == 0 {
        TellsNothing(observed, reports, maxDepth);
        return;
      }
      ghost var scope := Known();
      CheckStmt(ss[0]);
      ghost var o1, r1 := observed, reports;
      CheckBlock(ss[1..]);
      TellsBoth(old(observed), old(reports), o1, r1, observed, reports, maxDepth,
                StmtDepths(ss[0], scope), BlockDepths(ss[1..], After(ss[0], scope)));
    }
  }

  /** Only the innermost table is another. */
  predicate SameButInner(a: seq<Symbols>, b: seq<Symbols>) {
    |a| == |b| > 0 && a[..|a| - 1] == b[..|b| - 1]
  }

  function Taken(names: seq<string>, wildcard: bool): set<string> {
    if wildcard then Named(names) else NameSet(names)
  }

  lemma TakenMore(scope: Scope, names: seq<string>, i: nat, wildcard: bool)
    requires i < |names|
    ensures Untyped(scope, Taken(names[..i + 1], wildcard)) ==
      if wildcard && names[i] == "_" then Untyped(scope, Taken(names[..i], wildcard))
      else Untyped(scope, Taken(names[..i], wildcard))[names[i] := UNKNOWN]
  {
    var before, x := Taken(names[..i], wildcard), names[i];
    assert names[..i + 1] == names[..i] + [x];
    assert Taken(names[..i + 1], wildcard) == before + (if wildcard && x == "_" then {} else {x});
    hide Taken;
    OneUntyped(scope, before, x);
    assert before + {} == before;
  }

  lemma OneUntyped(scope: Scope, names: set<string>, x: string)
    ensures Untyped(scope, names + {x}) == Untyped(scope, names)[x := UNKNOWN]
  {}

  /** The depths of a statement's expressions, each in the scope it is checked in. */
  function StmtDepths(s: Stmt, scope: Scope): seq<nat>
    decreases s, 1
  {
    match s
    case Let(_, e, _) => DepthsIn(e, scope)
    case LetTuple(_, e) => DepthsIn(e, scope)
    case Assign(target, e) => DepthsIn(target, scope) + DepthsIn(e, scope)
    case Evaluate(e) => DepthsIn(e, scope)
    case If(c, a, b) => DepthsIn(c, scope) + BlockDepths(a, scope) + BlockDepths(b, AfterAll(a, scope))
    case Fixed(c, _, a, b) => DepthsIn(c, scope) + BlockDepths(a, scope) + BlockDepths(b, AfterAll(a, scope))
    case For(names, iterable, body) => DepthsIn(iterable, scope) + BlockDepths(body, Untyped(scope, NameSet(names)))
  }

  function BlockDepths(ss: seq<Stmt>, scope: Scope): seq<nat>
    decreases ss, 0
  {
    if |ss| == 0 then [] else StmtDepths(ss[0], scope) + BlockDepths(ss[1..], After(ss[0], scope))
  }

  /** The depths are taken into the largest seen, and those over the limit are reported. */
  predicate Tells(o0: nat, r0: seq<nat>, o1: nat, r1: seq<nat>, limit: nat, depths: seq<nat>) {
    o1 == MaxOf(o0, depths) && r1 == r0 + Over(limit, depths)
  }

  lemma TellsNothing(o: nat, r: seq<nat>, limit: nat)
    ensures Tells(o, r, o, r, limit, [])
  {}

  lemma TellsOne(o: nat, r: seq<nat>, limit: nat, depth: nat)
    ensures Tells(o, r, Max(o, depth), r + (if depth > limit then [depth] else []), limit, [depth])
  {
    assert [depth][..0] == [];
  }

  lemma TellsBoth(o0: nat, r0: seq<nat>, o1: nat, r1: seq<nat>, o2: nat, r2: seq<nat>, limit: nat, a: seq<nat>,
          b: seq<nat>)
    requires Tells(o0, r0, o1, r1, limit, a) && Tells(o1, r1, o2, r2, limit, b)
    ensures Tells(o0, r0, o2, r2, limit, a + b)
  {
    MaxOfAppend(o0, a, b);
    OverAppend(limit, a, b);
  }
}
