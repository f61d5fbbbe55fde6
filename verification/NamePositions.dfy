/** Scoping by positions in the tree: which binding an occurrence of a name stands under,
    said of paths alone, and that exactly the other occurrences are rewritten. */
module NamePositions {
  import opened NameResolution

  /** From the root: which child, then which of its children, and so on. */
  type Path = seq<nat>

  function Children(n: Node): seq<Node> {
    match n
    case Reference(_) => []
    case Typed(_, _, parts) => parts
    case Shorthand(_) => []
    case IdentPattern(_) => []
    case Let(_, parts) => parts
    case For(_, iterable, body) => [iterable, body]
    case Scope(_, _, parts) => parts
    case Other(parts) => parts
  }

  predicate Valid(n: Node, p: Path)
    decreases |p|
  {
    |p| == 0 || (p[0] < |Children(n)| && Valid(Children(n)[p[0]], p[1..]))
  }

  function NodeAt(n: Node, p: Path): Node
    requires Valid(n, p)
    decreases |p|
  {
    if |p| == 0 then n else NodeAt(Children(n)[p[0]], p[1..])
  }

  // ----- what binds where -----

  /** The names that a node binds in the scope it stands in, from there on. */
  function Own(m: Module, n: Node): set<string> {
    match n
    case Let(names, _) => set x | x in names
    case Shorthand(x) => {x}
    case IdentPattern(x) => if IsQualified(x) || x in m.declared then {} else {x}
    case _ => {}
  }

  /** A node has a scope of its own for this child: a loop for its body, a function, a
      closure, a match arm and a block for everything in them. */
  predicate Opens(n: Node, k: nat) {
    n.Scope? || (n.For? && k == 1)
  }

  /** The names that it binds there: parameters and loop variables. */
  function Brings(n: Node, k: nat): set<string> {
    if n.Scope? then (set x | x in n.names)
    else if n.For? && k == 1 then (set x | x in n.names)
    else {}
  }

  predicate OpensOn(n: Node, p: Path, i: nat)
    requires i < |p|
  {
    Valid(n, p[..i]) && Opens(NodeAt(n, p[..i]), p[i])
  }

  predicate BringsOn(n: Node, p: Path, i: nat, x: string)
    requires i < |p|
  {
    Valid(n, p[..i]) && x in Brings(NodeAt(n, p[..i]), p[i])
  }

  /** From the given step on, the path goes into no new scope. */
  predicate Exposed(n: Node, q: Path, from: nat) {
    forall i :: from <= i < |q| ==> !OpensOn(n, q, i)
  }

  /** What is bound at q is in scope at p: q is before p where the two part, in a scope
      that p is in. */
  predicate ReachesFrom(n: Node, q: Path, p: Path, c: nat) {
    c < |q| && c < |p| && q[..c] == p[..c] && q[c] < p[c] && Exposed(n, q, c + 1)
  }

  ghost predicate Reaches(n: Node, q: Path, p: Path) {
    exists c: nat :: ReachesFrom(n, q, p, c)
  }

  /** There is a scope to bind in at q. */
  predicate InScope(n: Node, q: Path, open: bool) {
    open || exists i: nat :: i < |q| && OpensOn(n, q, i)
  }

  predicate Binder(m: Module, n: Node, q: Path, x: string) {
    Valid(n, q) && x in Own(m, NodeAt(n, q))
  }

  /** An enclosing parameter or loop variable of that name, or an earlier binding of it. */
  ghost predicate BoundAt(m: Module, n: Node, p: Path, x: string, env: Env) {
    || x in env.names
    || (exists i: nat :: i < |p| && BringsOn(n, p, i, x))
    || (exists q :: Binder(m, n, q, x) && Reaches(n, q, p) && InScope(n, q, env.open))
  }

  // ----- one step down -----

  lemma StepDown(n: Node, k: nat, q: Path)
    requires k < |Children(n)|
    ensures Valid(n, [k] + q) <==> Valid(Children(n)[k], q)
    ensures Valid(Children(n)[k], q) ==> NodeAt(n, [k] + q) == NodeAt(Children(n)[k], q)
    ensures forall i: nat :: i < |q| ==> (OpensOn(n, [k] + q, i + 1) <==> OpensOn(Children(n)[k], q, i))
    ensures forall i: nat, x :: i < |q| ==> (BringsOn(n, [k] + q, i + 1, x) <==> BringsOn(Children(n)[k], q, i, x))
    ensures OpensOn(n, [k] + q, 0) <==> Opens(n, k)
    ensures forall x :: BringsOn(n, [k] + q, 0, x) <==> x in Brings(n, k)
  {
    var p := [k] + q;
    assert p[1..] == q && p[0] == k;
    forall i: nat | i < |q|
      ensures Valid(n, p[..i + 1]) <==> Valid(Children(n)[k], q[..i])
      ensures Valid(Children(n)[k], q[..i]) ==> NodeAt(n, p[..i + 1]) == NodeAt(Children(n)[k], q[..i])
    {
      assert p[..i + 1] == [k] + q[..i] && p[..i + 1][1..] == q[..i];
    }
    assert p[..0] == [];
  }

  lemma ExposedDown(n: Node, k: nat, q: Path, from: nat)
    requires k < |Children(n)|
    ensures Exposed(n, [k] + q, from + 1) <==> Exposed(Children(n)[k], q, from)
    ensures Exposed(n, [k] + q, 0) <==> !Opens(n, k) && Exposed(Children(n)[k], q, 0)
  {
    StepDown(n, k, q);
    hide OpensOn, Valid, Opens;
    var p := [k] + q;
    if Exposed(n, p, from + 1) {
      forall i | from <= i < |q| ensures !OpensOn(Children(n)[k], q, i) { assert !OpensOn(n, p, i + 1); }
    }
    if Exposed(Children(n)[k], q, from) {
      forall i | from + 1 <= i < |p| ensures !OpensOn(n, p, i) { assert !OpensOn(Children(n)[k], q, i - 1); }
    }
    if Exposed(n, p, 0) {
      forall i | 0 <= i < |q| ensures !OpensOn(Children(n)[k], q, i) { assert !OpensOn(n, p, i + 1); }
    }
    if !Opens(n, k) && Exposed(Children(n)[k], q, 0) {
      forall i | 0 <= i < |p| ensures !OpensOn(n, p, i) {
        if i > 0 { assert !OpensOn(Children(n)[k], q, i - 1); }
      }
    }
  }

  // ----- what a node binds around it -----

  /** A binding in the node that is in the scope around it. */
  ghost predicate Binding(m: Module, n: Node, x: string) {
    exists q :: Binder(m, n, q, x) && Exposed(n, q, 0)
  }

  lemma BindingParts(m: Module, n: Node, x: string)
    ensures Binding(m, n, x) <==>
      x in Own(m, n) || exists k: nat :: k < |Children(n)| && !Opens(n, k) && Binding(m, Children(n)[k], x)
  {
    hide Own, Opens, Exposed;
    if q :| Binder(m, n, q, x) && Exposed(n, q, 0) {
      if |q| > 0 {
        var k, rest := q[0], q[1..];
        assert q == [k] + rest;
        StepDown(n, k, rest);
        ExposedDown(n, k, rest, 0);
        assert Binder(m, Children(n)[k], rest, x);
      }
    }
    if x in Own(m, n) {
      assert Binder(m, n, [], x) && Exposed(n, [], 0) by { EmptyExposed(n); }
    }
    if k: nat :| k < |Children(n)| && !Opens(n, k) && Binding(m, Children(n)[k], x) {
      var q :| Binder(m, Children(n)[k], q, x) && Exposed(Children(n)[k], q, 0);
      StepDown(n, k, q);
      ExposedDown(n, k, q, 0);
      assert Binder(m, n, [k] + q, x);
    }
  }

  lemma EmptyExposed(n: Node)
    ensures Exposed(n, [], 0)
  {}

  lemma OpenParts(m: Module, n: Node, x: string)
    requires !n.Scope? && !n.For?
    ensures Binding(m, n, x) <==>
      x in Own(m, n) || exists k: nat :: k < |Children(n)| && Binding(m, Children(n)[k], x)
  {
    hide Binding, Own, Children;
    BindingParts(m, n, x);
    assert forall k: nat :: !Opens(n, k);
  }

  /** What a node binds is what is bound somewhere in it outside the scopes it opens. */
  lemma {:induction false} BindsExactly(m: Module, n: Node, x: string)
    ensures x in m.Binds(n) <==> Binding(m, n, x)
    decreases n, 0
  {
    hide Binding, IsQualified;
    if n.Scope? {
      BindingParts(m, n, x);
    } else if n.For? {
      BindingParts(m, n, x);
      BindsExactly(m, n.iterable, x);
      assert Children(n)[0] == n.iterable && !Opens(n, 0);
    } else {
      OpenParts(m, n, x);
      if n.Typed? || n.Let? || n.Other? {
        AllBindExactly(m, n.parts, x);
        assert Children(n) == n.parts;
        assert x in m.Binds(n) <==> x in Own(m, n) || x in m.BindsAll(n.parts);
      } else {
        assert Children(n) == [];
      }
    }
  }

  lemma {:induction false} AllBindExactly(m: Module, ns: seq<Node>, x: string)
    ensures x in m.BindsAll(ns) <==> exists k: nat :: k < |ns| && Binding(m, ns[k], x)
    decreases ns, 0
  {
    hide Binding, Module.Binds;
    if |ns| > 0 {
      BindsExactly(m, ns[0], x);
      AllBindExactly(m, ns[1..], x);
      if k: nat :| k < |ns| && Binding(m, ns[k], x) {
        if k > 0 { assert ns[1..][k - 1] == ns[k]; }
      }
      if k: nat :| k < |ns[1..]| && Binding(m, ns[1..][k], x) { assert ns[k + 1] == ns[1..][k]; }
    }
  }

  // ----- the names in scope of a child -----

  /** The names bound where a node's k-th child stands, as the resolver has them. */
  function ChildEnv(m: Module, n: Node, k: nat, env: Env): Env
    requires k < |Children(n)|
  {
    if n.For? then (if k == 0 then env else env.With(m.Binds(n.iterable)).Inner(NameSet(n.names)))
    else (if n.Scope? then env.Inner(NameSet(n.names)) else env).With(m.BindsAll(Children(n)[..k]))
  }

  lemma {:induction false} PartResolved(m: Module, ns: seq<Node>, env: Env, k: nat)
    requires k < |ns| && m.ResolvedAll(ns, env).Ok?
    ensures m.Resolved(ns[k], env.With(m.BindsAll(ns[..k]))) == Ok(m.ResolvedAll(ns, env).value[k])
    decreases |ns|
  {
    hide Module.Resolved, Module.Binds;
    if k == 0 {
      assert ns[..0] == [] && env.With({}) == env;
    } else {
      var inner := env.With(m.Binds(ns[0]));
      PartResolved(m, ns[1..], inner, k - 1);
      assert ns[..k][1..] == ns[1..][..k - 1] && ns[..k][0] == ns[0];
      assert inner.With(m.BindsAll(ns[1..][..k - 1])) == env.With(m.BindsAll(ns[..k]));
      var r := m.ResolvedAll(ns, env).value;
      assert r[1..] == m.ResolvedAll(ns[1..], inner).value && r[k] == r[1..][k - 1];
    }
  }

  /** A node's children are resolved under those names. */
  lemma ChildResolved(m: Module, n: Node, k: nat, env: Env)
    requires k < |Children(n)| && m.Resolved(n, env).Ok?
    ensures |Children(m.Resolved(n, env).value)| == |Children(n)|
    ensures m.Resolved(Children(n)[k], ChildEnv(m, n, k, env)) == Ok(Children(m.Resolved(n, env).value)[k])
  {
    hide Module.Canon, Module.IsVariant, Module.Binds, Module.BindsAll;
    match n
    case Typed(_, _, parts) => PartResolved(m, parts, env, k);
    case Let(_, parts) => PartResolved(m, parts, env, k);
    case Scope(_, names, parts) => PartResolved(m, parts, env.Inner(NameSet(names)), k);
    case Other(parts) => PartResolved(m, parts, env, k);
    case For(_, _, _) =>
  }

  /** An earlier sibling's bindings reach the child where there is a scope. */
  ghost predicate Sibling(m: Module, n: Node, k: nat, x: string, open: bool)
    requires k <= |Children(n)|
  {
    exists i: nat :: i < k && (n.For? ==> i == 0) && (open || n.Scope?) && Binding(m, Children(n)[i], x)
  }

  lemma ChildNames(m: Module, n: Node, k: nat, x: string, env: Env)
    requires k < |Children(n)|
    ensures x in ChildEnv(m, n, k, env).names <==>
      x in env.names || x in Brings(n, k) || Sibling(m, n, k, x, env.open)
    ensures ChildEnv(m, n, k, env).open <==> env.open || Opens(n, k)
  {
    hide Binding, Module.Binds, Module.BindsAll;
    if n.For? {
      BindsExactly(m, n.iterable, x);
      assert Children(n)[0] == n.iterable;
    } else {
      var before := Children(n)[..k];
      AllBindExactly(m, before, x);
      assert forall i: nat :: i < k ==> before[i] == Children(n)[i];
      assert x in m.BindsAll(before) <==> exists i: nat :: i < k && Binding(m, Children(n)[i], x);
    }
  }

  // ----- one step of a binding's reach -----

  lemma FirstStep(m: Module, n: Node, k: nat, p: Path, x: string, open: bool, i: nat, q: Path)
    requires k < |Children(n)| && i < k && |q| > 0 && q[0] == i
    requires Binder(m, n, q, x) && ReachesFrom(n, q, [k] + p, 0) && InScope(n, q, open)
    ensures Sibling(m, n, k, x, open)
  {
    var rest := q[1..];
    assert q == [i] + rest;
    StepDown(n, i, rest);
    ExposedDown(n, i, rest, 0);
    assert Binder(m, Children(n)[i], rest, x);
    assert Binding(m, Children(n)[i], x);
    if !open {
      var j: nat :| j < |q| && OpensOn(n, q, j);
      assert j == 0;
      assert Opens(n, i) && (n.For? ==> |Children(n)| == 2);
    }
  }

  lemma SiblingReaches(m: Module, n: Node, k: nat, p: Path, x: string, open: bool) returns (q: Path)
    requires k < |Children(n)| && Sibling(m, n, k, x, open)
    ensures Binder(m, n, q, x) && Reaches(n, q, [k] + p) && InScope(n, q, open)
  {
    var i: nat :| i < k && (n.For? ==> i == 0) && (open || n.Scope?) && Binding(m, Children(n)[i], x);
    var rest :| Binder(m, Children(n)[i], rest, x) && Exposed(Children(n)[i], rest, 0);
    q := [i] + rest;
    StepDown(n, i, rest);
    ExposedDown(n, i, rest, 0);
    assert ReachesFrom(n, q, [k] + p, 0);
    if !open { assert OpensOn(n, q, 0); }
  }

  lemma InScopeDown(n: Node, k: nat, q: Path, open: bool)
    requires k < |Children(n)|
    ensures InScope(n, [k] + q, open) <==> InScope(Children(n)[k], q, open || Opens(n, k))
  {
    StepDown(n, k, q);
    hide OpensOn, Opens;
    if i: nat :| i < |[k] + q| && OpensOn(n, [k] + q, i) {
      if i > 0 { assert OpensOn(Children(n)[k], q, i - 1); }
    }
    if i: nat :| i < |q| && OpensOn(Children(n)[k], q, i) { assert OpensOn(n, [k] + q, i + 1); }
    if Opens(n, k) { assert OpensOn(n, [k] + q, 0); }
  }

  lemma ReachesDown(n: Node, k: nat, q: Path, p: Path, c: nat)
    requires k < |Children(n)|
    ensures ReachesFrom(n, [k] + q, [k] + p, c + 1) <==> ReachesFrom(Children(n)[k], q, p, c)
  {
    ExposedDown(n, k, q, c + 1);
    hide Exposed;
    var a, b := [k] + q, [k] + p;
    if c < |q| && c < |p| {
      assert a[..c + 1] == [k] + q[..c] && b[..c + 1] == [k] + p[..c];
      assert a[..c + 1][1..] == q[..c] && b[..c + 1][1..] == p[..c];
    }
  }

  /** Bound at a position: bound in the child, with the names that it has in scope. */
  lemma BoundDown(m: Module, n: Node, k: nat, p: Path, x: string, env: Env)
    requires k < |Children(n)|
    ensures BoundAt(m, n, [k] + p, x, env) <==> BoundAt(m, Children(n)[k], p, x, ChildEnv(m, n, k, env))
  {
    hide Binder, Reaches, InScope, Sibling, ChildEnv, OpensOn, BringsOn, Opens, Brings, Children;
    ChildNames(m, n, k, x, env);
    if BoundAt(m, n, [k] + p, x, env) { BoundInside(m, n, k, p, x, env); }
    if BoundAt(m, Children(n)[k], p, x, ChildEnv(m, n, k, env)) { BoundOutside(m, n, k, p, x, env); }
  }

  lemma BoundInside(m: Module, n: Node, k: nat, p: Path, x: string, env: Env)
    requires k < |Children(n)| && BoundAt(m, n, [k] + p, x, env)
    ensures BoundAt(m, Children(n)[k], p, x, ChildEnv(m, n, k, env))
  {
    hide Binder, InScope, Sibling, ChildEnv, OpensOn, BringsOn, Opens, Brings, Children, Exposed;
    ChildNames(m, n, k, x, env);
    StepDown(n, k, p);
    if i: nat :| i < |[k] + p| && BringsOn(n, [k] + p, i, x) {
      if i > 0 { assert BringsOn(Children(n)[k], p, i - 1, x); }
    } else if q :| Binder(m, n, q, x) && Reaches(n, q, [k] + p) && InScope(n, q, env.open) {
      var c: nat :| ReachesFrom(n, q, [k] + p, c);
      var rest := q[1..];
      assert q == [q[0]] + rest;
      if c == 0 {
        FirstStep(m, n, k, p, x, env.open, q[0], q);
      } else {
        assert q[0] == q[..c][0] == ([k] + p)[..c][0] == k;
        DeeperInside(m, n, k, rest, p, x, env.open, c - 1);
        BoundBy(m, Children(n)[k], p, x, ChildEnv(m, n, k, env), rest);
      }
    }
  }

  lemma BoundBy(m: Module, n: Node, p: Path, x: string, env: Env, q: Path)
    requires Binder(m, n, q, x) && Reaches(n, q, p) && InScope(n, q, env.open)
    ensures BoundAt(m, n, p, x, env)
  {}

  lemma DeeperInside(m: Module, n: Node, k: nat, q: Path, p: Path, x: string, open: bool, c: nat)
    requires k < |Children(n)| && Binder(m, n, [k] + q, x)
    requires ReachesFrom(n, [k] + q, [k] + p, c + 1) && InScope(n, [k] + q, open)
    ensures Binder(m, Children(n)[k], q, x) && Reaches(Children(n)[k], q, p)
    ensures InScope(Children(n)[k], q, open || Opens(n, k))
  {
    hide Binder, InScope, ReachesFrom, Opens;
    ReachesDown(n, k, q, p, c);
    InScopeDown(n, k, q, open);
    BinderDown(m, n, k, q, x);
  }

  lemma BinderDown(m: Module, n: Node, k: nat, q: Path, x: string)
    requires k < |Children(n)|
    ensures Binder(m, n, [k] + q, x) <==> Binder(m, Children(n)[k], q, x)
  {
    hide Own;
    StepDown(n, k, q);
  }

  lemma BoundOutside(m: Module, n: Node, k: nat, p: Path, x: string, env: Env)
    requires k < |Children(n)| && BoundAt(m, Children(n)[k], p, x, ChildEnv(m, n, k, env))
    ensures BoundAt(m, n, [k] + p, x, env)
  {
    hide Binder, InScope, Sibling, ChildEnv, OpensOn, BringsOn, Opens, Brings, Children, Exposed;
    ChildNames(m, n, k, x, env);
    StepDown(n, k, p);
    var child, inner := Children(n)[k], ChildEnv(m, n, k, env);
    if x in inner.names {
      if x in Brings(n, k) {
        assert BringsOn(n, [k] + p, 0, x);
      } else if Sibling(m, n, k, x, env.open) {
        var q := SiblingReaches(m, n, k, p, x, env.open);
      }
    } else if i: nat :| i < |p| && BringsOn(child, p, i, x) {
      assert BringsOn(n, [k] + p, i + 1, x);
    } else {
      var q :| Binder(m, child, q, x) && Reaches(child, q, p) && InScope(child, q, inner.open);
      var c: nat :| ReachesFrom(child, q, p, c);
      ReachesDown(n, k, q, p, c);
      InScopeDown(n, k, q, env.open);
      BinderDown(m, n, k, q, x);
      assert Reaches(n, [k] + q, [k] + p);
      BoundBy(m, n, [k] + p, x, env, [k] + q);
    }
  }

  // ----- what is rewritten -----

  /** The name by which a node refers, if it does. */
  function RefersBy(m: Module, n: Node): seq<string> {
    match n
    case Reference(x) => [x]
    case Typed(_, x, _) => [x]
    case IdentPattern(x) => if IsQualified(x) || x in m.declared then [x] else []
    case _ => []
  }

  /** A node without its children, and without the name it refers by. */
  function Head(m: Module, n: Node): Node {
    match n
    case Reference(_) => Reference("")
    case Typed(kind, _, _) => Typed(kind, "", [])
    case Shorthand(_) => n
    case IdentPattern(_) => if RefersBy(m, n) == [] then n else IdentPattern("")
    case Let(names, _) => Let(names, [])
    case For(names, _, _) => For(names, Other([]), Other([]))
    case Scope(kind, names, _) => Scope(kind, names, [])
    case Other(_) => Other([])
  }

  /** The name that an occurrence gets: the module's own, under its full name, if the name
      is bare and declared and no binding of it is in scope. */
  ghost function Rewritten(m: Module, n: Node, p: Path, x: string, env: Env): string {
    if !IsQualified(x) && m.name != "" && x in m.declared && !BoundAt(m, n, p, x, env) then Fqn(m.name, x) else x
  }

  lemma BoundHere(m: Module, n: Node, x: string, env: Env)
    ensures BoundAt(m, n, [], x, env) <==> x in env.names
  {
    hide Binder, InScope, BringsOn;
  }

  lemma CanonIs(m: Module, n: Node, x: string, env: Env)
    requires m.Named() && WellParsed(x) && m.Canon(x, env).Ok?
    ensures m.Canon(x, env).value == Rewritten(m, n, [], x, env)
  {
    hide BoundAt, IsQualified, Qualifier, Rest;
    BoundHere(m, n, x, env);
    if IsQualified(x) { JoinSplit(x); }
  }

  /** In a resolved tree, an occurrence of a bare name that the module declares is rewritten
      if and only if no parameter, loop variable or earlier let, pattern or field of that
      name has it in scope; every other name and node is as it was. */
  lemma {:induction false} RewrittenExactly(m: Module, n: Node, p: Path, env: Env)
    requires m.Named() && Parsed(n) && m.Resolved(n, env).Ok? && Valid(n, p)
    ensures var r := m.Resolved(n, env).value;
      && Valid(r, p) && Head(m, NodeAt(r, p)) == Head(m, NodeAt(n, p))
      && |Children(NodeAt(r, p))| == |Children(NodeAt(n, p))|
      && |RefersBy(m, NodeAt(r, p))| == |RefersBy(m, NodeAt(n, p))|
      && (RefersBy(m, NodeAt(n, p)) != [] ==>
            RefersBy(m, NodeAt(r, p))[0] == Rewritten(m, n, p, RefersBy(m, NodeAt(n, p))[0], env))
    decreases |p|
  {
    hide BoundAt, IsQualified, Qualifier, Rest;
    if |p| == 0 {
      RootRewritten(m, n, env);
    } else {
      var k, rest := p[0], p[1..];
      assert p == [k] + rest;
      ChildResolved(m, n, k, env);
      ChildParsed(n, k);
      hide Module.Resolved, Head, RefersBy, Children, ChildEnv, Parsed;
      RewrittenExactly(m, Children(n)[k], rest, ChildEnv(m, n, k, env));
      var name := RefersBy(m, NodeAt(n, p));
      if name != [] { BoundDown(m, n, k, rest, name[0], env); }
    }
  }

  lemma RootRewritten(m: Module, n: Node, env: Env)
    requires m.Named() && Parsed(n) && m.Resolved(n, env).Ok?
    ensures var r := m.Resolved(n, env).value;
      && Head(m, r) == Head(m, n) && |Children(r)| == |Children(n)| && |RefersBy(m, r)| == |RefersBy(m, n)|
      && (RefersBy(m, n) != [] ==> RefersBy(m, r)[0] == Rewritten(m, n, [], RefersBy(m, n)[0], env))
  {
    hide Rewritten, IsQualified, Module.Canon, WellParsed;
    var name := RefersBy(m, n);
    if name != [] {
      assert name[0] in References(n);
      CanonIs(m, n, name[0], env);
      CanonKeeps(m, name[0], env);
    }
  }

  lemma ChildParsed(n: Node, k: nat)
    requires k < |Children(n)| && Parsed(n)
    ensures Parsed(Children(n)[k])
  {
    hide WellParsed;
    ChildReferences(n, k);
  }

  lemma ChildReferences(n: Node, k: nat)
    requires k < |Children(n)|
    ensures References(Children(n)[k]) <= References(n)
  {
    match n
    case Typed(_, _, parts) => PartReferences(parts, k);
    case Let(_, parts) => PartReferences(parts, k);
    case Scope(_, _, parts) => PartReferences(parts, k);
    case Other(parts) => PartReferences(parts, k);
    case For(_, _, _) =>
  }

  lemma {:induction false} PartReferences(ns: seq<Node>, k: nat)
    requires k < |ns|
    ensures References(ns[k]) <= AllReferences(ns)
  {
    if k > 0 { PartReferences(ns[1..], k - 1); }
  }
}
