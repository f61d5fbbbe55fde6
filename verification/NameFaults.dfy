/** Which reference a failed resolution names, and why: the first bad one in the order of the
    source. */
module NameFaults {
  import opened NameResolution

  /** The names a tree refers by, in the order of the source. */
  function Order(n: Node): seq<string>
    decreases n, 0
  {
    match n
    case Reference(x) => [x]
    case Typed(_, x, parts) => [x] + AllInOrder(parts)
    case Shorthand(_) => []
    case IdentPattern(x) => [x]
    case Let(_, parts) => AllInOrder(parts)
    case For(_, iterable, body) => Order(iterable) + Order(body)
    case Scope(_, _, parts) => AllInOrder(parts)
    case Other(parts) => AllInOrder(parts)
  }

  function AllInOrder(ns: seq<Node>): seq<string>
    decreases ns, 0
  {
    if |ns| == 0 then [] else Order(ns[0]) + AllInOrder(ns[1..])
  }

  /** What is wrong with a qualified name. */
  predicate IsWhy(m: Module, x: string, fault: Fault) {
    IsQualified(x) &&
    var mod, rest := Qualifier(x), Rest(x);
    match fault
    case TooQualified => IsQualified(rest)
    case NotDeclared =>
      !IsQualified(rest)
      && (if mod == m.name then rest !in m.declared else mod in m.imports && rest !in m.imports[mod])
    case NotImported => !IsQualified(rest) && mod != m.name && mod !in m.imports && mod in m.loaded
    case UnknownModule => !IsQualified(rest) && mod != m.name && mod !in m.imports && mod !in m.loaded
  }

  predicate NoneBad(m: Module, names: seq<string>) {
    forall x :: x in names ==> !m.Bad(x)
  }

  /** x is the first bad name, and the fault is what is wrong with it. */
  predicate Blames(m: Module, names: seq<string>, fault: Fault, x: string) {
    exists k :: 0 <= k < |names| && names[k] == x && m.Bad(x) && NoneBad(m, names[..k]) && IsWhy(m, x, fault)
  }

  /** Nothing bad and success, or the first bad name. */
  predicate Told<T>(m: Module, names: seq<string>, r: Result<T>) {
    if r.Ok? then NoneBad(m, names) else Blames(m, names, r.fault, r.name)
  }

  lemma ToldBefore<T>(m: Module, a: seq<string>, b: seq<string>, r: Result<T>)
    requires Told(m, a, r) && r.Err?
    ensures Told(m, a + b, r)
  {
    hide IsWhy, Module.Bad;
    var k :| 0 <= k < |a| && a[k] == r.name && NoneBad(m, a[..k]) && m.Bad(r.name) && IsWhy(m, r.name, r.fault);
    assert (a + b)[k] == a[k] && (a + b)[..k] == a[..k];
  }

  lemma ToldAfter<T>(m: Module, a: seq<string>, b: seq<string>, r: Result<T>)
    requires NoneBad(m, a) && Told(m, b, r)
    ensures Told(m, a + b, r)
  {
    hide IsWhy, Module.Bad;
    if r.Err? {
      var k :| 0 <= k < |b| && b[k] == r.name && NoneBad(m, b[..k]) && m.Bad(r.name) && IsWhy(m, r.name, r.fault);
      assert (a + b)[|a| + k] == b[k] && (a + b)[..|a| + k] == a + b[..k];
    }
  }

  lemma ToldOfName(m: Module, x: string, env: Env)
    ensures Told(m, [x], m.Canon(x, env))
  {
    hide IsQualified, Qualifier, Rest;
    var names := [x];
    assert names[0] == x && names[..0] == [];
    if m.Canon(x, env).Err? {
      assert m.Canon(x, env).name == x && NoneBad(m, names[..0]) && m.Bad(x);
    }
  }

  /** A failed resolution names the first bad reference and says what is wrong with it. */
  lemma {:induction false} FirstIsBlamed(m: Module, n: Node, env: Env)
    ensures Told(m, Order(n), m.Resolved(n, env))
    decreases n, 0
  {
    hide Told, Module.Canon;
    match n
    case Reference(x) =>
      ToldOfName(m, x, env);
      SameFault(m, [x], m.Canon(x, env), m.Resolved(n, env));
    case Typed(kind, x, parts) =>
      ToldOfName(m, x, env);
      var c := m.Canon(x, env);
      if c.Err? {
        ToldBefore(m, [x], AllInOrder(parts), c);
        SameFault(m, Order(n), c, m.Resolved(n, env));
      } else {
        AllBlamed(m, parts, env);
        OkIsClean(m, [x], c);
        ToldAfter(m, [x], AllInOrder(parts), m.ResolvedAll(parts, env));
        SameFault(m, Order(n), m.ResolvedAll(parts, env), m.Resolved(n, env));
      }
    case Shorthand(_) => NothingTold(m, m.Resolved(n, env));
    case IdentPattern(x) =>
      if m.IsVariant(x) {
        ToldOfName(m, x, env);
        SameFault(m, [x], m.Canon(x, env), m.Resolved(n, env));
      } else {
        BareIsClean(m, x, m.Resolved(n, env));
      }
    case Let(_, parts) =>
      AllBlamed(m, parts, env);
      SameFault(m, Order(n), m.ResolvedAll(parts, env), m.Resolved(n, env));
    case For(names, iterable, body) =>
      var inner := env.With(m.Binds(iterable)).Inner(NameSet(names));
      FirstIsBlamed(m, iterable, env);
      FirstIsBlamed(m, body, inner);
      ForBlamed(m, n, env, inner);
    case Scope(_, names, parts) =>
      AllBlamed(m, parts, env.Inner(NameSet(names)));
      SameFault(m, Order(n), m.ResolvedAll(parts, env.Inner(NameSet(names))), m.Resolved(n, env));
    case Other(parts) =>
      AllBlamed(m, parts, env);
      SameFault(m, Order(n), m.ResolvedAll(parts, env), m.Resolved(n, env));
  }

  lemma ForBlamed(m: Module, n: Node, env: Env, inner: Env)
    requires n.For? && inner == env.With(m.Binds(n.iterable)).Inner(NameSet(n.names))
    requires Told(m, Order(n.iterable), m.Resolved(n.iterable, env))
    requires Told(m, Order(n.body), m.Resolved(n.body, inner))
    ensures Told(m, Order(n), m.Resolved(n, env))
  {
    hide Told;
    var i, b := m.Resolved(n.iterable, env), m.Resolved(n.body, inner);
    if i.Err? {
      ToldBefore(m, Order(n.iterable), Order(n.body), i);
    } else {
      OkIsClean(m, Order(n.iterable), i);
      ToldAfter(m, Order(n.iterable), Order(n.body), b);
      SameFault(m, Order(n), b, m.Resolved(n, env));
    }
  }

  lemma {:induction false} AllBlamed(m: Module, ns: seq<Node>, env: Env)
    ensures Told(m, AllInOrder(ns), m.ResolvedAll(ns, env))
    decreases ns, 0
  {
    hide Told;
    if |ns| == 0 {
      NothingTold(m, m.ResolvedAll(ns, env));
    } else {
      FirstIsBlamed(m, ns[0], env);
      AllBlamed(m, ns[1..], env.With(m.Binds(ns[0])));
      var first, rest := m.Resolved(ns[0], env), m.ResolvedAll(ns[1..], env.With(m.Binds(ns[0])));
      if first.Err? {
        ToldBefore(m, Order(ns[0]), AllInOrder(ns[1..]), first);
        SameFault(m, AllInOrder(ns), first, m.ResolvedAll(ns, env));
      } else {
        OkIsClean(m, Order(ns[0]), first);
        ToldAfter(m, Order(ns[0]), AllInOrder(ns[1..]), rest);
        SameFault(m, AllInOrder(ns), rest, m.ResolvedAll(ns, env));
      }
    }
  }

  lemma SameFault<S, T>(m: Module, names: seq<string>, r: Result<S>, t: Result<T>)
    requires Told(m, names, r) && (r.Ok? <==> t.Ok?) && (r.Err? ==> t.fault == r.fault && t.name == r.name)
    ensures Told(m, names, t)
  {}

  lemma OkIsClean<T>(m: Module, names: seq<string>, r: Result<T>)
    requires Told(m, names, r) && r.Ok?
    ensures NoneBad(m, names)
  {}

  lemma NothingTold<T>(m: Module, r: Result<T>)
    requires r.Ok?
    ensures Told(m, [], r)
  {}

  lemma BareIsClean<T>(m: Module, x: string, r: Result<T>)
    requires r.Ok? && !m.IsVariant(x)
    ensures Told(m, [x], r)
  {}
}
