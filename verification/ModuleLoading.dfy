/** Loading the root module and everything it imports, depth first. */
module ModuleLoading {

  /** What each module's files import, file by file, in order. */
  type Files = seq<seq<string>>

  datatype Outcome =
    | Loaded
    | Cycle(chain: seq<string>)
    | NotFound(name: string)

  // ----- the import graph -----

  /** A program: the root's name and files, and the modules the search path holds. */
  datatype Program = Program(root: string, files: Files, found: map<string, Files>) {

    predicate Has(name: string) {
      name == root || name in found
    }

    /** The modules a module imports: the root's own files are never searched for. */
    predicate Imports(name: string, imported: string) {
      && Has(name)
      && exists f :: f in (if name == root then files else found[name]) && imported in f
    }

    /** Each name of the path imports the next. */
    predicate IsPath(path: seq<string>) {
      && |path| > 0
      && forall i :: 0 <= i < |path| - 1 ==> Imports(path[i], path[i + 1])
    }

    /** The root imports it, in some number of steps. */
    ghost predicate Reaches(name: string) {
      exists path :: IsPath(path) && path[0] == root && path[|path| - 1] == name
    }

    /** Some module that the root reaches imports itself, in some number of steps. */
    ghost predicate Cyclic() {
      exists path :: IsPath(path) && |path| > 1 && path[0] == path[|path| - 1] && Reaches(path[0])
    }

    /** Every module the root reaches has files. */
    ghost predicate AllFound() {
      forall name :: Reaches(name) ==> Has(name)
    }

    lemma Extended(path: seq<string>, name: string)
      requires IsPath(path) && Imports(path[|path| - 1], name)
      ensures IsPath(path + [name])
    {}

    lemma ReachesNext(name: string, imported: string)
      requires Reaches(name) && Imports(name, imported)
      ensures Reaches(imported)
    {
      var path :| IsPath(path) && path[0] == root && path[|path| - 1] == name;
      Extended(path, imported);
      assert (path + [imported])[|path|] == imported;
    }

    /** A set that holds the root and is closed under imports holds all it reaches. */
    lemma {:induction false} StaysInside(closed: set<string>, path: seq<string>)
      requires IsPath(path) && path[0] in closed
      requires forall a, b :: a in closed && Imports(a, b) ==> b in closed
      ensures path[|path| - 1] in closed
    {
      if |path| > 1 {
        assert Imports(path[0], path[1]);
        assert IsPath(path[1..]);
        StaysInside(closed, path[1..]);
      }
    }
  }

  /** Every module listed imports only modules listed before it. */
  ghost predicate DependenciesFirst(p: Program, order: seq<string>) {
    forall i, imported :: 0 <= i < |order| && p.Imports(order[i], imported) ==> imported in order[..i]
  }

  predicate Distinct(names: seq<string>) {
    forall i, j :: 0 <= i < j < |names| ==> names[i] != names[j]
  }

  /** Each module the root imports, in some number of steps, once, after its own imports. */
  ghost predicate ImportOrder(p: Program, order: seq<string>) {
    && Distinct(order)
    && DependenciesFirst(p, order)
    && p.root !in order
    && forall name :: name in order <==> p.Reaches(name) && name != p.root
  }

  // ----- the imports of one module -----

  /** The names of all files, without duplicates. */
  method ImportsOf(files: Files) returns (imports: seq<string>)
    ensures Distinct(imports)
    ensures forall name :: name in imports <==> exists f :: f in files && name in f
  {
    imports := [];
    for i := 0 to |files|
      invariant Distinct(imports)
      invariant forall name :: name in imports <==> exists f :: f in files[..i] && name in f
    {
      ghost var before := imports;
      for j := 0 to |files[i]|
        invariant Distinct(imports)
        invariant forall name :: name in imports <==> name in before || name in files[i][..j]
      {
        if files[i][j] !in imports {
          imports := imports + [files[i][j]];
        }
      }
      assert files[..i + 1] == files[..i] + [files[i]];
      assert files[i][..|files[i]|] == files[i];
    }
    assert files[..|files|] == files;
  }

  class ModuleLoader {
    const program: Program
    var modules: set<string>
    var order: seq<string>
    var loading: seq<string>

    constructor (program: Program)
      ensures this.program == program && modules == {} && order == [] && loading == []
    {
      this.program := program;
      modules, order, loading := {}, [], [];
    }

    /** What is loaded is listed, after its imports and reached; what is being loaded is
        a chain of imports from the root. */
    ghost predicate Valid()
      reads this
    {
      && (forall name :: name in modules <==> name in order)
      && Distinct(order)
      && DependenciesFirst(program, order)
      && (forall name :: name in order ==> program.Reaches(name) && program.Has(name))
      && Chain(program, loading)
      && (forall name :: name in loading ==> name !in modules)
    }

    /** The whole run: loaded with every import in order, or the fault that stopped it. */
    method Load() returns (outcome: Outcome)
      requires modules == {} && order == [] && loading == []
      modifies this
      ensures outcome.Loaded? <==> program.AllFound() && !program.Cyclic()
      ensures outcome.Loaded? ==> ImportOrder(program, order)
      ensures outcome.Cycle? ==> program.Cyclic()
      ensures outcome.NotFound? ==> program.Reaches(outcome.name) && !program.Has(outcome.name)
    {
      loading := [program.root];
      assert program.IsPath([program.root]);
      assert program.Reaches(program.root);
      outcome := ParseModule(program.root, program.files);
      if outcome.Loaded? {
        loading := [];
        AllLoaded(program, order);
      }
    }

    /** One module: its imports first. */
    method ParseModule(name: string, files: Files) returns (outcome: Outcome)
      requires Valid() && |loading| > 0 && loading[|loading| - 1] == name
      requires program.Has(name) && files == if name == program.root then program.files else program.found[name]
      modifies this
      ensures outcome.Loaded? ==> Valid() && loading == old(loading) && old(order) <= order
      ensures outcome.Loaded? ==> forall imported :: program.Imports(name, imported) ==> imported in modules
      ensures Faulty(program, outcome)
      decreases program.found.Keys - Set(loading), 1
    {
      var imports := ImportsOf(files);
      assert forall imported :: imported in imports <==> program.Imports(name, imported);
      for i := 0 to |imports|
        invariant Valid() && loading == old(loading) && old(order) <= order
        invariant forall j :: 0 <= j < i ==> imports[j] in modules
      {
        var imported := imports[i];
        assert imported in imports;
        if imported == name || imported in loading {
          ClosesCycle(program, loading, imported);
          return Cycle(loading + [imported]);
        }
        if imported !in modules {
          ReachesImport(program, loading, imported);
          outcome := LoadImport(imported);
          if !outcome.Loaded? {
            return;
          }
        }
      }
      outcome := Loaded;
    }

    method LoadImport(name: string) returns (outcome: Outcome)
      requires Valid() && |loading| > 0 && program.Imports(loading[|loading| - 1], name)
      requires name !in loading && name !in modules && name != program.root && program.Reaches(name)
      modifies this
      ensures outcome.Loaded? ==> Valid() && loading == old(loading) && old(order) <= order && name in modules
      ensures Faulty(program, outcome)
      decreases program.found.Keys - Set(loading), 0
    {
      if name !in program.found {
        return NotFound(name);
      }
      ghost var was := loading;
      loading := loading + [name];
      program.Extended(was, name);
      assert name in Set(loading) && name !in Set(was) && Set(was) <= Set(loading);
      outcome := ParseModule(name, program.found[name]);
      if outcome.Loaded? {
        loading := loading[..|loading| - 1];
        assert loading == was;
        ListedLast(program, order, name);
        modules := modules + {name};
        order := order + [name];
      }
    }
  }

  // ----- what the loader's steps rely on -----

  predicate Chain(p: Program, loading: seq<string>) {
    loading == [] || (p.IsPath(loading) && loading[0] == p.root)
  }

  function Set(names: seq<string>): set<string> {
    set name | name in names
  }

  /** A fault is a real one. */
  ghost predicate Faulty(p: Program, outcome: Outcome) {
    && (outcome.Cycle? ==> p.Cyclic())
    && (outcome.NotFound? ==> p.Reaches(outcome.name) && !p.Has(outcome.name))
  }

  lemma ReachesImport(p: Program, loading: seq<string>, imported: string)
    requires |loading| > 0 && Chain(p, loading) && p.Imports(loading[|loading| - 1], imported)
    ensures p.Reaches(imported)
  {
    assert p.Reaches(loading[|loading| - 1]);
    p.ReachesNext(loading[|loading| - 1], imported);
  }

  /** An import of a module that is being loaded closes a cycle. */
  lemma ClosesCycle(p: Program, loading: seq<string>, imported: string)
    requires |loading| > 0 && Chain(p, loading) && imported in loading && p.Imports(loading[|loading| - 1], imported)
    ensures p.Cyclic()
  {
    var i :| 0 <= i < |loading| && loading[i] == imported;
    var back := loading[i..] + [imported];
    p.Extended(loading[i..], imported);
    var to := loading[..i + 1];
    assert p.IsPath(to) && to[0] == p.root && to[|to| - 1] == imported;
    assert p.IsPath(back) && back[0] == back[|back| - 1] == imported;
  }

  lemma ListedLast(p: Program, order: seq<string>, name: string)
    requires DependenciesFirst(p, order) && forall imported :: p.Imports(name, imported) ==> imported in order
    ensures DependenciesFirst(p, order + [name])
  {
    var all := order + [name];
    forall i, imported | 0 <= i < |all| && p.Imports(all[i], imported) ensures imported in all[..i] {
      if i < |order| {
        assert all[..i] == order[..i];
      } else {
        assert all[..i] == order;
      }
    }
  }

  /** Along a path inside the order the positions go down. */
  lemma {:induction false} PositionsFall(p: Program, order: seq<string>, path: seq<string>, i: nat)
    requires DependenciesFirst(p, order) && p.IsPath(path) && i < |order| && path[0] == order[i]
    ensures |path| > 1 ==> path[|path| - 1] in order[..i]
  {
    if |path| > 1 {
      assert p.Imports(path[0], path[1]);
      var j :| 0 <= j < i && order[j] == path[1];
      assert p.IsPath(path[1..]);
      PositionsFall(p, order, path[1..], j);
      if |path| > 2 {
        assert order[..j] <= order[..i];
        assert forall x :: x in order[..j] ==> x in order[..i];
      }
    }
  }

  lemma NoCycleInside(p: Program, order: seq<string>, path: seq<string>)
    requires Distinct(order) && DependenciesFirst(p, order) && p.IsPath(path) && |path| > 1 && path[0] in order
    ensures path[0] != path[|path| - 1]
  {
    var i :| 0 <= i < |order| && order[i] == path[0];
    PositionsFall(p, order, path, i);
  }

  lemma AllLoaded(p: Program, order: seq<string>)
    requires Distinct(order) && DependenciesFirst(p, order) && p.root !in order
    requires forall name :: name in order ==> p.Reaches(name) && p.Has(name)
    requires forall imported :: p.Imports(p.root, imported) ==> imported in order
    ensures ImportOrder(p, order) && p.AllFound() && !p.Cyclic()
  {
    var closed := Set(order) + {p.root};
    forall a, b | a in closed && p.Imports(a, b) ensures b in closed && b in order {
      if a != p.root {
        var i :| 0 <= i < |order| && order[i] == a;
        assert b in order[..i];
      }
    }
    forall name | p.Reaches(name) ensures name in closed {
      var path :| p.IsPath(path) && path[0] == p.root && path[|path| - 1] == name;
      p.StaysInside(closed, path);
    }
    if p.Cyclic() {
      var path :| p.IsPath(path) && |path| > 1 && path[0] == path[|path| - 1] && p.Reaches(path[0]);
      assert path[0] in closed;
      if path[0] in order {
        NoCycleInside(p, order, path);
      } else {
        assert p.Imports(path[0], path[1]) && path[1] in order && p.IsPath(path[1..]);
        StaysLoaded(p, order, path[1..]);
      }
    }
  }

  lemma StaysLoaded(p: Program, order: seq<string>, path: seq<string>)
    requires DependenciesFirst(p, order) && p.IsPath(path) && path[0] in order
    ensures path[|path| - 1] in order
  {
    forall a, b | a in Set(order) && p.Imports(a, b) ensures b in Set(order) {
      var i :| 0 <= i < |order| && order[i] == a;
      assert b in order[..i];
    }
    p.StaysInside(Set(order), path);
  }
}
