/** The resolver: a stack of scopes, pushed and popped around what binds names. What its
    walk does is proved equal to `NameResolution`'s function of the tree and of the names
    bound on the stack, and the stack is left as it was except for the names the tree
    binds in the innermost scope. An error ends the walk with its scopes still pushed;
    the module is not used then. */
module NameResolver {
  import opened NameResolution

  type Scopes = seq<set<string>>

  function Union(scopes: Scopes): set<string> {
    if |scopes| == 0 then {} else Union(scopes[..|scopes| - 1]) + scopes[|scopes| - 1]
  }

  function EnvOf(scopes: Scopes): Env {
    Env(Union(scopes), |scopes| > 0)
  }

  /** Names added to the innermost scope, if there is one. */
  function Bound(scopes: Scopes, names: set<string>): Scopes {
    if |scopes| == 0 then scopes else scopes[..|scopes| - 1] + [scopes[|scopes| - 1] + names]
  }

  lemma BoundEnv(scopes: Scopes, names: set<string>)
    ensures EnvOf(Bound(scopes, names)) == EnvOf(scopes).With(names)
  {
    if |scopes| > 0 {
      assert Bound(scopes, names)[..|scopes| - 1] == scopes[..|scopes| - 1];
    }
  }

  lemma PushedEnv(scopes: Scopes, names: set<string>)
    ensures EnvOf(scopes + [names]) == EnvOf(scopes).Inner(names)
  {
    assert (scopes + [names])[..|scopes|] == scopes;
  }

  lemma BoundTwice(scopes: Scopes, a: set<string>, b: set<string>)
    ensures Bound(Bound(scopes, a), b) == Bound(scopes, a + b)
  {
    if |scopes| > 0 {
      var s := scopes[|scopes| - 1];
      assert s + a + b == s + (a + b);
    }
  }

  lemma BoundNothing(scopes: Scopes)
    ensures Bound(scopes, {}) == scopes
  {
    if |scopes| > 0 {
      assert scopes[|scopes| - 1] + {} == scopes[|scopes| - 1];
    }
  }

  lemma {:induction false} InUnion(scopes: Scopes, name: string)
    ensures name in Union(scopes) <==> exists i :: 0 <= i < |scopes| && name in scopes[i]
  {
    if |scopes| > 0 {
      var init := scopes[..|scopes| - 1];
      InUnion(init, name);
      if name in Union(init) {
        var i :| 0 <= i < |init| && name in init[i];
        assert scopes[i] == init[i];
      }
      if i :| 0 <= i < |scopes| && name in scopes[i] {
        assert i < |init| ==> init[i] == scopes[i];
      }
    }
  }

  class Resolver {
    const mod: Module
    var scopes: Scopes

    constructor (mod: Module)
      ensures this.mod == mod && scopes == []
    {
      this.mod := mod;
      scopes := [];
    }

    method Push(names: seq<string>)
      modifies this
      ensures scopes == old(scopes) + [NameSet(names)]
    {
      scopes := scopes + [NameSet(names)];
    }

    method Pop()
      requires |scopes| > 0
      modifies this
      ensures scopes == old(scopes)[..|old(scopes)| - 1]
    {
      scopes := scopes[..|scopes| - 1];
    }

    method Bind(name: string)
      modifies this
      ensures scopes == Bound(old(scopes), {name})
    {
      if |scopes| > 0 {
        scopes := scopes[|scopes| - 1 := scopes[|scopes| - 1] + {name}];
      }
    }

    method BindAll(names: seq<string>)
      modifies this
      ensures scopes == Bound(old(scopes), NameSet(names))
    {
      BoundNothing(scopes);
      assert NameSet(names[..0]) == {};
      for i := 0 to |names|
        invariant scopes == Bound(old(scopes), NameSet(names[..i]))
      {
        BoundTwice(old(scopes), NameSet(names[..i]), {names[i]});
        assert NameSet(names[..i + 1]) == NameSet(names[..i]) + {names[i]};
        Bind(names[i]);
      }
      assert names[..|names|] == names;
    }

    method IsLocal(name: string) returns (local: bool)
      ensures local == (name in Union(scopes))
    {
      InUnion(scopes, name);
      for i := 0 to |scopes|
        invariant forall j :: 0 <= j < i ==> name !in scopes[j]
      {
        if name in scopes[i] {
          return true;
        }
      }
      return false;
    }

    method Canon(ref: string) returns (r: Result<string>)
      ensures r == mod.Canon(ref, EnvOf(scopes))
    {
      hide IsQualified, Qualifier, Rest;
      if IsQualified(ref) {
        var qualifier, rest := Qualifier(ref), Rest(ref);
        if IsQualified(rest) {
          return Err(TooQualified, ref);
        }
        var target;
        if qualifier == mod.name {
          target := mod.declared;
        } else if qualifier in mod.imports {
          target := mod.imports[qualifier];
        } else if qualifier in mod.loaded {
          return Err(NotImported, ref);
        } else {
          return Err(UnknownModule, ref);
        }
        if rest !in target {
          return Err(NotDeclared, ref);
        }
        return Ok(Fqn(qualifier, rest));
      }
      var local := IsLocal(ref);
      if mod.name != "" && ref in mod.declared && !local {
        return Ok(Fqn(mod.name, ref));
      }
      return Ok(ref);
    }

    /** The tree rewritten under the names bound around it; what it binds itself goes to
        the innermost scope, and every scope it opened is gone. */
    method Walk(n: Node) returns (r: Result<Node>)
      modifies this
      ensures r == mod.Resolved(n, EnvOf(old(scopes)))
      ensures r.Ok? ==> scopes == Bound(old(scopes), mod.Binds(n))
      decreases n, 1
    {
      BoundNothing(scopes);
      match n {
        case Reference(x) =>
          var c := Canon(x);
          r := if c.Ok? then Ok(Reference(c.value)) else Err(c.fault, c.name);
        case Typed(kind, x, parts) =>
          var c := Canon(x);
          if c.Err? {
            return Err(c.fault, c.name);
          }
          var ps := WalkAll(parts);
          r := if ps.Ok? then Ok(Typed(kind, c.value, ps.value)) else Err(ps.fault, ps.name);
        case Shorthand(x) =>
          Bind(x);
          r := Ok(n);
        case IdentPattern(x) =>
          if IsQualified(x) || x in mod.declared {
            var c := Canon(x);
            r := if c.Ok? then Ok(IdentPattern(c.value)) else Err(c.fault, c.name);
          } else {
            Bind(x);
            r := Ok(n);
          }
        case Let(names, parts) =>
          var ps := WalkAll(parts);
          if ps.Err? {
            return Err(ps.fault, ps.name);
          }
          BoundTwice(old(scopes), mod.BindsAll(parts), NameSet(names));
          BindAll(names);
          r := Ok(Let(names, ps.value));
        case For(names, iterable, body) => r := WalkFor(names, iterable, body);
        case Scope(kind, names, parts) => r := WalkScope(kind, names, parts);
        case Other(parts) =>
          var ps := WalkAll(parts);
          r := if ps.Ok? then Ok(Other(ps.value)) else Err(ps.fault, ps.name);
      }
    }

    method WalkFor(names: seq<string>, iterable: Node, body: Node) returns (r: Result<Node>)
      modifies this
      ensures r == mod.Resolved(For(names, iterable, body), EnvOf(old(scopes)))
      ensures r.Ok? ==> scopes == Bound(old(scopes), mod.Binds(iterable))
      decreases For(names, iterable, body), 0
    {
      var i := Walk(iterable);
      if i.Err? {
        return i;
      }
      BoundEnv(old(scopes), mod.Binds(iterable));
      ghost var outer := scopes;
      PushedEnv(outer, NameSet(names));
      Push(names);
      var b := Walk(body);
      if b.Err? {
        return b;
      }
      Pop();
      assert scopes == outer;
      r := Ok(For(names, i.value, b.value));
    }

    method WalkScope(kind: ScopeKind, names: seq<string>, parts: seq<Node>) returns (r: Result<Node>)
      modifies this
      ensures r == mod.Resolved(Scope(kind, names, parts), EnvOf(old(scopes)))
      ensures r.Ok? ==> scopes == old(scopes)
      decreases Scope(kind, names, parts), 0
    {
      PushedEnv(scopes, NameSet(names));
      Push(names);
      var ps := WalkAll(parts);
      if ps.Err? {
        return Err(ps.fault, ps.name);
      }
      Pop();
      r := Ok(Scope(kind, names, ps.value));
    }

    method WalkAll(ns: seq<Node>) returns (r: Result<seq<Node>>)
      modifies this
      ensures r == mod.ResolvedAll(ns, EnvOf(old(scopes)))
      ensures r.Ok? ==> scopes == Bound(old(scopes), mod.BindsAll(ns))
      decreases ns, 0
    {
      if |ns| == 0 {
        BoundNothing(scopes);
        return Ok([]);
      }
      var first := Walk(ns[0]);
      if first.Err? {
        return Err(first.fault, first.name);
      }
      BoundEnv(old(scopes), mod.Binds(ns[0]));
      BoundTwice(old(scopes), mod.Binds(ns[0]), mod.BindsAll(ns[1..]));
      var rest := WalkAll(ns[1..]);
      r := if rest.Ok? then Ok([first.value] + rest.value) else rest;
    }

    /** The module's items, one by one, each on its own. */
    method Resolve(items: seq<Node>) returns (r: Result<seq<Node>>)
      requires scopes == []
      modifies this
      ensures r.Ok? <==> forall i :: 0 <= i < |items| ==> forall x :: x in References(items[i]) ==> !mod.Bad(x)
      ensures r.Ok? ==> scopes == [] && |r.value| == |items|
      ensures r.Ok? ==> forall i :: 0 <= i < |items| ==> mod.Resolved(items[i], Env({}, false)) == Ok(r.value[i])
    {
      var done: seq<Node> := [];
      for i := 0 to |items|
        invariant scopes == [] && |done| == i
        invariant forall j :: 0 <= j < i ==> mod.Resolved(items[j], Env({}, false)) == Ok(done[j])
        invariant forall j :: 0 <= j < i ==> forall x :: x in References(items[j]) ==> !mod.Bad(x)
      {
        FailsExactlyOnBadNames(mod, items[i], Env({}, false));
        var item := Walk(items[i]);
        if item.Err? {
          return Err(item.fault, item.name);
        }
        done := done + [item.value];
      }
      return Ok(done);
    }
  }
}
