/** Rewriting a module's references to canonical names. `Module.Resolved` says what the
    result is, under the set of names bound where a reference stands; the resolver
    below keeps a stack of scopes that it pushes, extends and pops as it walks. */
module NameResolution {

  datatype Fault = TooQualified | NotImported | UnknownModule | NotDeclared

  datatype Result<+T> = Ok(value: T) | Err(fault: Fault, name: string)

  /** An io type that names no type is one of the other nodes. */
  datatype TypedKind = StructLiteral | IoType | StructPattern

  datatype ScopeKind = Function | Closure | MatchArm | Block

  /** A syntax tree as far as names go. */
  datatype Node =
    | Reference(name: string)                                           // an expression or a type
    | Typed(kind: TypedKind, name: string, parts: seq<Node>)            // a name, then what it is applied to
    | Shorthand(name: string)                                           // a field pattern that is only a name
    | IdentPattern(name: string)
    | Let(names: seq<string>, parts: seq<Node>)
    | For(names: seq<string>, iterable: Node, body: Node)
    | Scope(scope: ScopeKind, names: seq<string>, parts: seq<Node>)      // parameters, and what they are bound in
    | Other(parts: seq<Node>)                                           // any other node: its fields, in order

  // ----- qualified names -----

  /** `"::" in name` */
  predicate IsQualified(name: string) {
    |name| >= 2 && (name[..2] == "::" || IsQualified(name[1..]))
  }

  /** `name.split("::", 1)`: before and after the first `::`. */
  function Qualifier(name: string): string
    requires IsQualified(name)
  {
    if name[..2] == "::" then "" else [name[0]] + Qualifier(name[1..])
  }

  function Rest(name: string): string
    requires IsQualified(name)
  {
    if name[..2] == "::" then name[2..] else Rest(name[1..])
  }

  function Fqn(mod: string, name: string): string {
    if mod == "" then name else mod + "::" + name
  }

  lemma {:induction false} SplitFqn(mod: string, name: string)
    requires ':' !in mod
    ensures var q := mod + "::" + name; IsQualified(q) && Qualifier(q) == mod && Rest(q) == name
  {
    var q := mod + "::" + name;
    if mod == "" {
      assert q[..2] == "::" && q[2..] == name;
    } else {
      assert q[0] == mod[0] && q[1..] == mod[1..] + "::" + name;
      assert q[..2] != "::";
      SplitFqn(mod[1..], name);
    }
  }

  lemma {:induction false} JoinSplit(name: string)
    requires IsQualified(name)
    ensures name == Qualifier(name) + "::" + Rest(name)
  {
    if name[..2] == "::" {
      assert name == name[..2] + name[2..];
    } else {
      JoinSplit(name[1..]);
    }
  }

  // ----- scopes -----

  /** The names bound where a node stands, and whether there is a scope to bind in. */
  datatype Env = Env(names: set<string>, open: bool) {
    function With(more: set<string>): Env {
      if open then Env(names + more, true) else this
    }

    function Inner(more: set<string>): Env {
      Env(names + more, true)
    }
  }

  function NameSet(names: seq<string>): set<string> {
    set name | name in names
  }

  // ----- the module whose names are resolved -----

  datatype Module = Module(name: string, declared: set<string>, imports: map<string, set<string>>,
          loaded: set<string>) {

    /** Module names are identifiers. */
    predicate Named() {
      ':' !in name && "" !in imports
    }

    function Canon(ref: string, env: Env): Result<string> {
      if IsQualified(ref) then
        var mod, rest := Qualifier(ref), Rest(ref);
        if IsQualified(rest) then Err(TooQualified, ref)
        else if mod == name then (if rest in declared then Ok(Fqn(mod, rest)) else Err(NotDeclared, ref))
        else if mod in imports then (if rest in imports[mod] then Ok(Fqn(mod, rest)) else Err(NotDeclared, ref))
        else Err(if mod in loaded then NotImported else UnknownModule, ref)
      else if name != "" && ref in declared && ref !in env.names then Ok(Fqn(name, ref))
      else Ok(ref)
    }

    /** A pattern's name that is a reference, not a binding. */
    predicate IsVariant(pattern: string) {
      IsQualified(pattern) || pattern in declared
    }

    /** The names a node binds in the scope around it. */
    function Binds(n: Node): set<string>
      decreases n, 0
    {
      match n
      case Reference(_) => {}
      case Typed(_, _, parts) => BindsAll(parts)
      case Shorthand(x) => {x}
      case IdentPattern(x) => if IsVariant(x) then {} else {x}
      case Let(names, parts) => BindsAll(parts) + NameSet(names)
      case For(_, iterable, _) => Binds(iterable)
      case Scope(_, _, _) => {}
      case Other(parts) => BindsAll(parts)
    }

    function BindsAll(ns: seq<Node>): set<string>
      decreases ns, 0
    {
      if |ns| == 0 then {} else Binds(ns[0]) + BindsAll(ns[1..])
    }

    /** The tree with canonical names, or the first reference that names nothing. */
    function Resolved(n: Node, env: Env): Result<Node>
      decreases n, 0
    {
      match n
      case Reference(x) =>
        var c := Canon(x, env);
        if c.Ok? then Ok(Reference(c.value)) else Err(c.fault, c.name)
      case Typed(kind, x, parts) =>
        var c := Canon(x, env);
        if c.Err? then Err(c.fault, c.name)
        else
          var ps := ResolvedAll(parts, env);
          if ps.Ok? then Ok(Typed(kind, c.value, ps.value)) else Err(ps.fault, ps.name)
      case Shorthand(_) => Ok(n)
      case IdentPattern(x) =>
        if IsVariant(x) then
          var c := Canon(x, env);
          if c.Ok? then Ok(IdentPattern(c.value)) else Err(c.fault, c.name)
        else Ok(n)
      case Let(names, parts) =>
        var ps := ResolvedAll(parts, env);
        if ps.Ok? then Ok(Let(names, ps.value)) else Err(ps.fault, ps.name)
      case For(names, iterable, body) =>
        var i := Resolved(iterable, env);
        if i.Err? then i
        else
          var b := Resolved(body, env.With(Binds(iterable)).Inner(NameSet(names)));
          if b.Ok? then Ok(For(names, i.value, b.value)) else b
      case Scope(kind, names, parts) =>
        var ps := ResolvedAll(parts, env.Inner(NameSet(names)));
        if ps.Ok? then Ok(Scope(kind, names, ps.value)) else Err(ps.fault, ps.name)
      case Other(parts) =>
        var ps := ResolvedAll(parts, env);
        if ps.Ok? then Ok(Other(ps.value)) else Err(ps.fault, ps.name)
    }

    /** One node after the other, each in scope of what those before it bind. */
    function ResolvedAll(ns: seq<Node>, env: Env): (r: Result<seq<Node>>)
      ensures r.Ok? ==> |r.value| == |ns|
      decreases ns, 0
    {
      if |ns| == 0 then Ok([])
      else
        var first := Resolved(ns[0], env);
        if first.Err? then Err(first.fault, first.name)
        else
          var rest := ResolvedAll(ns[1..], env.With(Binds(ns[0])));
          if rest.Ok? then Ok([first.value] + rest.value) else rest
    }

    // ----- which references fail -----

    /** Whether a name names nothing. Bare names never fail. */
    predicate Bad(ref: string) {
      IsQualified(ref) &&
      (var mod, rest := Qualifier(ref), Rest(ref);
       || IsQualified(rest)
       || (if mod == name then rest !in declared else mod !in imports || rest !in imports[mod]))
    }
  }

  /** Every name a tree refers by, wherever it stands. */
  function References(n: Node): set<string>
    decreases n, 0
  {
    match n
    case Reference(x) => {x}
    case Typed(_, x, parts) => {x} + AllReferences(parts)
    case Shorthand(_) => {}
    case IdentPattern(x) => {x}
    case Let(_, parts) => AllReferences(parts)
    case For(_, iterable, body) => References(iterable) + References(body)
    case Scope(_, _, parts) => AllReferences(parts)
    case Other(parts) => AllReferences(parts)
  }

  function AllReferences(ns: seq<Node>): set<string>
    decreases ns, 0
  {
    if |ns| == 0 then {} else References(ns[0]) + AllReferences(ns[1..])
  }

  lemma BadAmong(m: Module, x: string, more: set<string>)
    ensures (exists y :: y in {x} + more && m.Bad(y)) <==> m.Bad(x) || (exists y :: y in more && m.Bad(y))
  {
    hide Module.Bad;
    if m.Bad(x) { assert x in {x} + more; }
    if y :| y in more && m.Bad(y) { assert y in {x} + more; }
  }

  /** Resolution fails exactly on a tree with a reference that names nothing. */
  lemma {:induction false} FailsExactlyOnBadNames(m: Module, n: Node, env: Env)
    ensures m.Resolved(n, env).Err? <==> exists x :: x in References(n) && m.Bad(x)
    decreases n, 0
  {
    hide IsQualified, Qualifier, Rest;
    match n
    case Reference(x) =>
      assert x in References(n);
    case Typed(_, x, parts) =>
      assert x in References(n);
      AllFailExactly(m, parts, env);
      assert m.Resolved(n, env).Err? <==> m.Bad(x) || m.ResolvedAll(parts, env).Err?;
      BadAmong(m, x, AllReferences(parts));
    case IdentPattern(x) =>
      assert m.IsVariant(x) ==> (m.Canon(x, env).Err? <==> m.Bad(x));
      assert !m.IsVariant(x) ==> !m.Bad(x);
      BadAmong(m, x, {});
      assert References(n) == {x} + {};
    case For(names, iterable, body) =>
      FailsExactlyOnBadNames(m, iterable, env);
      FailsExactlyOnBadNames(m, body, env.With(m.Binds(iterable)).Inner(NameSet(names)));
    case Scope(_, names, parts) => AllFailExactly(m, parts, env.Inner(NameSet(names)));
    case Let(_, parts) => AllFailExactly(m, parts, env);
    case Other(parts) => AllFailExactly(m, parts, env);
    case Shorthand(_) =>
  }

  lemma {:induction false} AllFailExactly(m: Module, ns: seq<Node>, env: Env)
    ensures m.ResolvedAll(ns, env).Err? <==> exists x :: x in AllReferences(ns) && m.Bad(x)
    decreases ns, 0
  {
    hide Module.Bad;
    if |ns| > 0 {
      FailsExactlyOnBadNames(m, ns[0], env);
      AllFailExactly(m, ns[1..], env.With(m.Binds(ns[0])));
    }
  }

  // ----- what a reference is to -----

  /** A local binding, or whatever the whole program declares under a canonical name. */
  datatype Target = Local(name: string) | Global(key: string)

  /** What a name in the module's own files is to: the innermost meaning it has there. */
  function Meant(m: Module, ref: string, env: Env): Target {
    if IsQualified(ref) then Global(ref)
    else if ref in env.names then Local(ref)
    else if ref in m.declared then Global(Fqn(m.name, ref))
    else Global(ref)
  }

  /** What a canonical name is to, with no module to look in. */
  function CanonicallyMeant(ref: string, env: Env): Target {
    if !IsQualified(ref) && ref in env.names then Local(ref) else Global(ref)
  }

  /** The targets of a tree's references in the order they are written. With a module
      they are read as that module's own, without one as canonical names. */
  function Targets(m: Module, n: Node, env: Env, own: bool): seq<Target>
    decreases n, 0
  {
    match n
    case Reference(x) => [TargetOf(m, x, env, own)]
    case Typed(_, x, parts) => [TargetOf(m, x, env, own)] + AllTargets(m, parts, env, own)
    case Shorthand(x) => []
    case IdentPattern(x) => if m.IsVariant(x) then [TargetOf(m, x, env, own)] else []
    case Let(_, parts) => AllTargets(m, parts, env, own)
    case For(names, iterable, body) =>
      Targets(m, iterable, env, own) + Targets(m, body, env.With(m.Binds(iterable)).Inner(NameSet(names)), own)
    case Scope(_, names, parts) => AllTargets(m, parts, env.Inner(NameSet(names)), own)
    case Other(parts) => AllTargets(m, parts, env, own)
  }

  function AllTargets(m: Module, ns: seq<Node>, env: Env, own: bool): seq<Target>
    decreases ns, 0
  {
    if |ns| == 0 then [] else Targets(m, ns[0], env, own) + AllTargets(m, ns[1..], env.With(m.Binds(ns[0])), own)
  }

  function TargetOf(m: Module, ref: string, env: Env, own: bool): Target {
    if own then Meant(m, ref, env) else CanonicallyMeant(ref, env)
  }

  /** Every qualified name has a qualifier. */
  predicate Parsed(n: Node) {
    forall x :: x in References(n) ==> WellParsed(x)
  }

  predicate WellParsed(ref: string) {
    IsQualified(ref) ==> Qualifier(ref) != ""
  }

  /** One name: the same target, and nothing left to rewrite. */
  lemma CanonKeeps(m: Module, x: string, env: Env)
    requires m.Named() && WellParsed(x) && m.Canon(x, env).Ok?
    ensures var y := m.Canon(x, env).value;
      && CanonicallyMeant(y, env) == Meant(m, x, env)
      && WellParsed(y) && m.Canon(y, env) == Ok(y)
      && (m.IsVariant(y) <==> m.IsVariant(x)) && (IsQualified(x) ==> y == x)
  {
    hide IsQualified, Qualifier, Rest;
    if IsQualified(x) {
      JoinSplit(x);
    } else if m.name != "" && x in m.declared && x !in env.names {
      SplitFqn(m.name, x);
    }
  }

  /** The names bound stay what they were. */
  lemma {:induction false} BindsKept(m: Module, n: Node, env: Env)
    requires m.Named() && Parsed(n) && m.Resolved(n, env).Ok?
    ensures m.Binds(m.Resolved(n, env).value) == m.Binds(n) && Parsed(m.Resolved(n, env).value)
    decreases n, 0
  {
    hide Module.Canon, Module.IsVariant, WellParsed;
    match n
    case Reference(x) => CanonKeeps(m, x, env);
    case Typed(kind, x, parts) =>
      assert x in References(n);
      CanonKeeps(m, x, env);
      AllBindsKept(m, parts, env);
    case IdentPattern(x) =>
      assert x in References(n);
      if m.IsVariant(x) { CanonKeeps(m, x, env); }
    case Let(_, parts) => AllBindsKept(m, parts, env);
    case For(names, iterable, body) =>
      BindsKept(m, iterable, env);
      BindsKept(m, body, env.With(m.Binds(iterable)).Inner(NameSet(names)));
    case Scope(_, names, parts) => AllBindsKept(m, parts, env.Inner(NameSet(names)));
    case Other(parts) => AllBindsKept(m, parts, env);
    case Shorthand(_) =>
  }

  lemma {:induction false} AllBindsKept(m: Module, ns: seq<Node>, env: Env)
    requires m.Named() && (forall x :: x in AllReferences(ns) ==> WellParsed(x)) && m.ResolvedAll(ns, env).Ok?
    ensures var r := m.ResolvedAll(ns, env).value;
      m.BindsAll(r) == m.BindsAll(ns) && forall x :: x in AllReferences(r) ==> WellParsed(x)
    decreases ns, 0
  {
    hide WellParsed;
    if |ns| > 0 {
      BindsKept(m, ns[0], env);
      AllBindsKept(m, ns[1..], env.With(m.Binds(ns[0])));
      var r := m.ResolvedAll(ns, env).value;
      assert r[1..] == m.ResolvedAll(ns[1..], env.With(m.Binds(ns[0]))).value;
    }
  }

  /** Resolving twice is resolving once. */
  lemma {:induction false} Idempotent(m: Module, n: Node, env: Env)
    requires m.Named() && Parsed(n) && m.Resolved(n, env).Ok?
    ensures m.Resolved(m.Resolved(n, env).value, env) == m.Resolved(n, env)
    decreases n, 0
  {
    hide Module.Canon, Module.IsVariant, WellParsed;
    match n
    case Reference(x) => CanonKeeps(m, x, env);
    case Typed(kind, x, parts) =>
      assert x in References(n);
      CanonKeeps(m, x, env);
      AllIdempotent(m, parts, env);
    case IdentPattern(x) =>
      assert x in References(n);
      if m.IsVariant(x) { CanonKeeps(m, x, env); }
    case Let(_, parts) => AllIdempotent(m, parts, env);
    case For(names, iterable, body) =>
      BindsKept(m, iterable, env);
      Idempotent(m, iterable, env);
      Idempotent(m, body, env.With(m.Binds(iterable)).Inner(NameSet(names)));
    case Scope(_, names, parts) => AllIdempotent(m, parts, env.Inner(NameSet(names)));
    case Other(parts) => AllIdempotent(m, parts, env);
    case Shorthand(_) =>
  }

  lemma {:induction false} AllIdempotent(m: Module, ns: seq<Node>, env: Env)
    requires m.Named() && (forall x :: x in AllReferences(ns) ==> WellParsed(x)) && m.ResolvedAll(ns, env).Ok?
    ensures m.ResolvedAll(m.ResolvedAll(ns, env).value, env) == m.ResolvedAll(ns, env)
    decreases ns, 0
  {
    hide WellParsed;
    if |ns| > 0 {
      var inner := env.With(m.Binds(ns[0]));
      BindsKept(m, ns[0], env);
      Idempotent(m, ns[0], env);
      AllIdempotent(m, ns[1..], inner);
      var r := m.ResolvedAll(ns, env).value;
      assert r[1..] == m.ResolvedAll(ns[1..], inner).value;
    }
  }

  /** Every reference keeps its target, found without the module from then on. */
  lemma {:induction false} MeaningKept(m: Module, n: Node, env: Env)
    requires m.Named() && Parsed(n) && m.Resolved(n, env).Ok?
    ensures Targets(m, m.Resolved(n, env).value, env, false) == Targets(m, n, env, true)
    decreases n, 0
  {
    hide Module.Canon, Module.IsVariant, WellParsed, Meant, CanonicallyMeant;
    match n
    case Reference(x) => CanonKeeps(m, x, env);
    case Typed(kind, x, parts) =>
      assert x in References(n);
      CanonKeeps(m, x, env);
      AllMeaningKept(m, parts, env);
    case IdentPattern(x) =>
      assert x in References(n);
      if m.IsVariant(x) { CanonKeeps(m, x, env); }
    case Let(_, parts) => AllMeaningKept(m, parts, env);
    case For(names, iterable, body) =>
      BindsKept(m, iterable, env);
      MeaningKept(m, iterable, env);
      MeaningKept(m, body, env.With(m.Binds(iterable)).Inner(NameSet(names)));
    case Scope(_, names, parts) => AllMeaningKept(m, parts, env.Inner(NameSet(names)));
    case Other(parts) => AllMeaningKept(m, parts, env);
    case Shorthand(_) =>
  }

  lemma {:induction false} AllMeaningKept(m: Module, ns: seq<Node>, env: Env)
    requires m.Named() && (forall x :: x in AllReferences(ns) ==> WellParsed(x)) && m.ResolvedAll(ns, env).Ok?
    ensures AllTargets(m, m.ResolvedAll(ns, env).value, env, false) == AllTargets(m, ns, env, true)
    decreases ns, 0
  {
    hide WellParsed;
    if |ns| > 0 {
      var inner := env.With(m.Binds(ns[0]));
      BindsKept(m, ns[0], env);
      MeaningKept(m, ns[0], env);
      AllMeaningKept(m, ns[1..], inner);
      var r := m.ResolvedAll(ns, env).value;
      assert r[1..] == m.ResolvedAll(ns[1..], inner).value;
    }
  }
}
