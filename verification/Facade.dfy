/** The auto-facade's hooks: what each one does to the facade's globals and which calls
    it makes on the compiler library, and the hooks themselves, which the library
    re-enters while they wait for it. */
module Facade {
  import opened Symbolic

  type Value = seq<real>

  datatype Mode = Uninitialized | Dormant | Record | Replay | Cooperative

  /** A ciphertext's identity: an object of the host's, or one that holds a fetched result. */
  datatype Id = Host(ct: nat) | Hardware(n: nat)

  /** A call on the compiler library. */
  datatype Call =
    | Start
    | TagKeys
    | TagInput(name: string, path: string)
    | TagPlaintext(name: string)
    | LoadPlaintext(name: string)
    | Probe(name: string, value: Value)
    | Simulate
    | Fetch(name: string)

  /** What lazy_init settles once the context is loaded. */
  datatype Setup = Setup(mode: Mode, initialized: bool, hasContext: bool, recording: bool, replaying: bool)

  /** Outside the facade: the calls made on the library, the ciphertexts and the files. */
  datatype World = World(
    running: bool, calls: seq<Call>, fetched: nat, elements: map<Id, Value>, files: map<string, Value>)
  {
    function Calling(call: Call): World {
      this.(calls := calls + [call])
    }

    function Elements(ct: Id): Value {
      if ct in elements then elements[ct] else []
    }

    /** A fetched result, in a ciphertext of its own. */
    function Fetching(value: Value): World {
      this.(fetched := fetched + 1, elements := elements[Hardware(fetched) := value])
    }

    function Writing(path: string, value: Value): World {
      this.(files := files[path := value])
    }

    function Setting(ct: Id, value: Value): World {
      this.(elements := elements[ct := value])
    }
  }

  /** The facade's globals, and the world. */
  datatype State = State(
    setup: Setup, keysTagged: bool, replayed: bool, encoding: bool, facadeIo: bool,
    outputs: nat, plaintexts: nat, loads: map<string, nat>, probed: map<Id, string>, substituted: set<Id>,
    world: World)
  {
    function Calling(call: Call): State {
      this.(world := world.Calling(call))
    }
  }

  // ----- names -----

  const PROBE_DIRECTORY := "serialized_probes"

  predicate StartsWith(s: string, part: string) {
    |part| <= |s| && s[..|part|] == part
  }

  predicate Contains(s: string, part: string) {
    StartsWith(s, part) || (|s| > 0 && Contains(s[1..], part))
  }

  predicate IsProbeFile(path: string) {
    Contains(path, PROBE_DIRECTORY)
  }

  function AfterLast(s: string, c: char): (r: string)
    ensures c !in r
  {
    if |s| == 0 then ""
    else if c in s then AfterLast(s[1..], c)
    else s
  }

  function BeforeLast(s: string, c: char): string
    requires c in s
  {
    if c in s[1..] then [s[0]] + BeforeLast(s[1..], c) else ""
  }

  /** std::filesystem::path::stem */
  function Stem(path: string): string {
    var name := AfterLast(path, '/');
    if name == "." || name == ".." || '.' !in name then name
    else
      var stem := BeforeLast(name, '.');
      if stem == "" then name else stem
  }

  predicate IsSeparator(c: char) {
    c == '/' || c == '\\' || c == ':' || c == ' '
  }

  function Escaped(s: string): (r: string)
    ensures |r| == |s|
  {
    if |s| == 0 then "" else [if IsSeparator(s[0]) then '_' else s[0]] + Escaped(s[1..])
  }

  function WithoutLeading(s: string): string {
    if |s| > 0 && s[0] == '_' then WithoutLeading(s[1..]) else s
  }

  /** A path as one name: no `.bin`, no separators and, unless it is nothing else,
      no leading underscores. */
  function UniqueName(path: string): string {
    var s := Escaped(if |path| >= 4 && path[|path| - 4..] == ".bin" then path[..|path| - 4] else path);
    if WithoutLeading(s) == "" then s else WithoutLeading(s)
  }

  function Loaded(loads: map<string, nat>, base: string): nat {
    if base in loads then loads[base] else 0
  }

  function InputName(base: string, n: nat): string {
    base + "_load_" + Decimal(n)
  }

  function OutputName(n: nat): string {
    "output_" + Decimal(n)
  }

  function PlaintextName(n: nat): string {
    "pt_" + Decimal(n)
  }

  // ----- what the hooks do -----

  /** lazy_init: a configuration makes the run record or, when the cached recording is
      valid, replay. */
  function SettledSetup(s: Setup, configured: bool, cooperative: bool, cached: bool): Setup {
    if s.initialized then s
    else Setup(if configured then (if cached then Replay else Record) else if cooperative then Cooperative else Dormant,
               true, s.hasContext, s.recording, s.replaying || (configured && cached))
  }

  function ContextLoaded(s: State, configured: bool, cooperative: bool, cached: bool): State {
    var setup := SettledSetup(s.setup.(hasContext := true), configured, cooperative, cached);
    if setup.mode == Record && !s.world.running then
      s.(setup := setup.(recording := true), world := s.world.(running := true).Calling(Start))
    else s.(setup := setup)
  }

  function KeysTagged(s: State): State {
    if s.keysTagged then s
    else if s.setup.hasContext then s.(keysTagged := true).Calling(TagKeys)
    else s.(keysTagged := true)
  }

  function Deserialized(s: State, path: string, present: bool): State {
    if !present || !s.setup.initialized || s.setup.mode == Dormant || s.facadeIo || IsProbeFile(path) then s
    else
      var base := UniqueName(path);
      var n := Loaded(s.loads, base);
      KeysTagged(s).(loads := s.loads[base := n + 1]).Calling(TagInput(InputName(base, n), path))
  }

  function Replayed(s: State): (t: State)
    ensures SameCounts(s, t)
  {
    if s.replayed then s else s.(replayed := true).Calling(Simulate)
  }

  function FetchedFrom(w: World, results: map<string, Value>, name: string): World {
    if name in results then w.Calling(Fetch(name)).Fetching(results[name]) else w.Calling(Fetch(name))
  }

  /** Outputs leave the inputs' and the plaintexts' counters alone. */
  predicate SameCounts(s: State, t: State) {
    t.loads == s.loads && t.plaintexts == s.plaintexts
  }

  function Named(s: State, ct: Id, name: string): State {
    s.(probed := s.probed[ct := name])
  }

  /** A serialize that replays: the result replaces the file's contents and the ciphertext's. */
  function Refreshed(s: State, path: string, ct: Id, name: string, value: Value): State {
    Named(s, ct, name).(substituted := s.substituted + {ct},
                        world := s.world.Fetching(value).Writing(path, value).Setting(ct, value))
  }

  /** The new state, and whether the caller's own write is to be skipped. */
  function Serialized(s: State, results: map<string, Value>, path: string, ct: Id): (r: (State, bool))
    ensures SameCounts(s, r.0)
  {
    var name := Stem(path);
    if !s.setup.initialized || IsProbeFile(path) then (s, false)
    else if s.setup.replaying then
      if !s.setup.hasContext then (Replayed(s), false)
      else if name in results then (Refreshed(Replayed(s).Calling(Fetch(name)), path, ct, name, results[name]), true)
      else (Replayed(s).Calling(Fetch(name)), false)
    else if s.setup.recording then (Named(s.Calling(Probe(name, s.world.Elements(ct))), ct, name), false)
    else (s, false)
  }

  /** A decrypt that replays: the result in a ciphertext of its own, under the same name. */
  function Substituted(s: State, ct: Id, name: string, value: Value): State {
    var hw := Hardware(s.world.fetched);
    Named(Named(s, ct, name), hw, name).(substituted := s.substituted + {hw}, world := s.world.Fetching(value))
  }

  function NameFor(s: State, ct: Id): string {
    if ct in s.probed then s.probed[ct] else OutputName(s.outputs)
  }

  /** A name for ct is at hand, or the next one is taken. */
  function NameTaken(s: State, ct: Id): State {
    if ct in s.probed then s else s.(outputs := s.outputs + 1)
  }

  function ResultTaken(s: State, results: map<string, Value>, ct: Id, name: string): (r: (State, Id))
    ensures SameCounts(s, r.0)
  {
    if ct in s.substituted || !s.setup.hasContext then (s, ct)
    else if name in results then
      (Substituted(s.Calling(Fetch(name)), ct, name, results[name]), Hardware(s.world.fetched))
    else (s.Calling(Fetch(name)), ct)
  }

  /** The new state, and the ciphertext that is then decrypted. */
  function Decrypted(s: State, results: map<string, Value>, ct: Id): (r: (State, Id))
    ensures SameCounts(s, r.0)
  {
    if !s.setup.initialized then (s, ct)
    else
      var name := NameFor(s, ct);
      var s1 := NameTaken(s, ct);
      if s.setup.recording then
        (if ct in s.probed then s1 else Named(s1.Calling(Probe(name, s.world.Elements(ct))), ct, name), ct)
      else if s.setup.replaying then ResultTaken(Replayed(s1), results, ct, name)
      else (s1, ct)
  }

  function Encoded(s: State, present: bool): State {
    if !s.setup.initialized || s.setup.mode == Dormant || s.setup.mode == Uninitialized || s.encoding then s
    else
      var name := PlaintextName(s.plaintexts);
      var s1 := s.(plaintexts := s.plaintexts + 1);
      if s.setup.mode == Replay then s1.Calling(LoadPlaintext(name))
      else if present then s1.Calling(TagPlaintext(name))
      else s1
  }

  // ----- the hooks the library re-enters -----

  /** A hook the library calls while the facade waits for it. */
  datatype Nested =
    | ProbeWrite(path: string, ct: Id)
    | ProbeRead(path: string)
    | Reencode

  /** What the library may re-enter: it reads and writes probe files, and while it runs
      for the facade it reads any file; while a plaintext is tagged it makes others. */
  predicate MayNest(nested: Nested, facadeIo: bool, encoding: bool) {
    match nested
    case ProbeWrite(path, _) => IsProbeFile(path)
    case ProbeRead(path) => facadeIo || IsProbeFile(path)
    case Reencode => encoding
  }

  predicate AllMayNest(nested: seq<Nested>, facadeIo: bool, encoding: bool) {
    forall n :: n in nested ==> MayNest(n, facadeIo, encoding)
  }

  class AutoFacade {
    var setup: Setup
    var keysTagged: bool
    var replayed: bool
    var encoding: bool
    var facadeIo: bool
    var outputs: nat
    var plaintexts: nat
    var loads: map<string, nat>
    var probed: map<Id, string>
    var substituted: set<Id>
    var world: World

    /** What the library can give back in this run. */
    const results: map<string, Value>

    function View(): State
      reads this
    {
      State(setup, keysTagged, replayed, encoding, facadeIo, outputs, plaintexts, loads, probed, substituted, world)
    }

    constructor (results: map<string, Value>)
      ensures View() == Idle() && this.results == results
    {
      setup := Setup(Uninitialized, false, false, false, false);
      keysTagged, replayed, encoding, facadeIo := false, false, false, false;
      outputs, plaintexts := 0, 0;
      loads, probed, substituted := map[], map[], {};
      world := World(false, [], 0, map[], map[]);
      this.results := results;
    }

    method LazyInit(configured: bool, cooperative: bool, cached: bool)
      modifies this`setup
      ensures setup == SettledSetup(old(setup), configured, cooperative, cached)
    {
      if setup.initialized {
        return;
      }
      if !configured {
        setup := setup.(mode := if cooperative then Cooperative else Dormant, initialized := true);
        return;
      }
      if cached {
        setup := setup.(replaying := true, mode := Replay);
      } else {
        setup := setup.(mode := Record);
      }
      setup := setup.(initialized := true);
    }

    method OnDeserializeCryptoContext(configured: bool, cooperative: bool, cached: bool)
      modifies this
      ensures View() == ContextLoaded(old(View()), configured, cooperative, cached)
    {
      setup := setup.(hasContext := true);
      LazyInit(configured, cooperative, cached);
      if setup.mode == Dormant || setup.mode == Cooperative {
        return;
      }
      if setup.mode == Record && !world.running {
        world := world.(running := true).Calling(Start);
        setup := setup.(recording := true);
      }
    }

    /** The library's nested hook calls, none of which leaves a trace. */
    method Reenter(nested: seq<Nested>)
      requires AllMayNest(nested, facadeIo, encoding)
      modifies this
      ensures View() == old(View())
      decreases |nested|, 0
    {
      for i := 0 to |nested|
        invariant View() == old(View())
      {
        assert nested[i] in nested;
        match nested[i] {
          case ProbeWrite(path, ct) => var skipped := OnSerializeCiphertext(path, ct, [], []);
          case ProbeRead(path) => OnDeserializeCiphertext(path, true);
          case Reencode => OnMakePlaintext(true, []);
        }
      }
    }

    method TagKeysOnce()
      modifies this`keysTagged, this`world
      ensures View() == KeysTagged(old(View()))
    {
      if !keysTagged {
        keysTagged := true;
        if setup.hasContext {
          world := world.Calling(TagKeys);
        }
      }
    }

    method OnDeserializeCiphertext(path: string, present: bool)
      modifies this`keysTagged, this`loads, this`world
      ensures View() == Deserialized(old(View()), path, present)
    {
      hide UniqueName, InputName, Contains;
      if !present || !setup.initialized || setup.mode == Dormant || facadeIo {
        return;
      }
      if Contains(path, PROBE_DIRECTORY) {
        return;
      }
      TagKeysOnce();
      var base := UniqueName(path);
      var n := Loaded(loads, base);
      loads := loads[base := n + 1];
      world := world.Calling(TagInput(InputName(base, n), path));
    }

    method EnsureReplayed(nested: seq<Nested>)
      requires AllMayNest(nested, facadeIo, encoding)
      modifies this
      ensures View() == Replayed(old(View()))
      decreases |nested|, 1
    {
      if !replayed {
        replayed := true;
        world := world.Calling(Simulate);
        Reenter(nested);
      }
    }

    /** The library's result(), which may read any file: the value under a name, if the
        library has it, in a new ciphertext. */
    method Result(name: string, nested: seq<Nested>) returns (found: bool, hw: Id)
      requires AllMayNest(nested, true, encoding) && !facadeIo
      modifies this
      ensures found == (name in results) && hw == Hardware(old(world).fetched)
      ensures View() == old(View()).(world := FetchedFrom(old(world), results, name))
      decreases |nested|, 1
    {
      facadeIo := true;
      world := world.Calling(Fetch(name));
      Reenter(nested);
      found, hw := name in results, Hardware(world.fetched);
      if found {
        world := world.Fetching(results[name]);
      }
      facadeIo := false;
    }

    /** Whatever the library re-enters while it replays and while it fetches. */
    method OnSerializeCiphertext(path: string, ct: Id, simulating: seq<Nested>, fetching: seq<Nested>)
      returns (skip: bool)
      requires AllMayNest(simulating, facadeIo, encoding) && AllMayNest(fetching, true, encoding)
      requires facadeIo ==> IsProbeFile(path)
      modifies this
      ensures (View(), skip) == Serialized(old(View()), results, path, ct)
      decreases |simulating| + |fetching|, 2
    {
      hide Contains, Stem;
      if !setup.initialized {
        return false;
      }
      var stem := Stem(path);
      if Contains(path, PROBE_DIRECTORY) {
        return false;
      }
      if setup.replaying {
        EnsureReplayed(simulating);
        if setup.hasContext {
          var found, hw := Result(stem, fetching);
          if found {
            probed := probed[ct := stem];
            var value := world.Elements(hw);
            world := world.Writing(path, value);
            world := world.Setting(ct, value);
            substituted := substituted + {ct};
          }
          return found;
        }
        return false;
      }
      if setup.recording {
        world := world.Calling(Probe(stem, world.Elements(ct)));
        probed := probed[ct := stem];
      }
      return false;
    }

    method NextProbeName() returns (name: string)
      modifies this`outputs
      ensures name == OutputName(old(outputs)) && outputs == old(outputs) + 1
    {
      name := OutputName(outputs);
      outputs := outputs + 1;
    }

    /** The part of on_decrypt after the replay: a ciphertext that holds a result already
        is decrypted as it is. */
    method TakeResult(ct: Id, name: string, fetching: seq<Nested>) returns (decrypted: Id)
      requires AllMayNest(fetching, true, encoding) && !facadeIo
      modifies this
      ensures (View(), decrypted) == ResultTaken(old(View()), results, ct, name)
    {
      decrypted := ct;
      if ct in substituted {
        return;
      }
      if setup.hasContext {
        var found, hw := Result(name, fetching);
        if found {
          probed := probed[ct := name];
          decrypted := hw;
          probed := probed[hw := name];
          substituted := substituted + {hw};
        }
      }
    }

    method OnDecrypt(ct: Id, simulating: seq<Nested>, fetching: seq<Nested>) returns (decrypted: Id)
      requires AllMayNest(simulating, facadeIo, encoding) && AllMayNest(fetching, true, encoding) && !facadeIo
      modifies this
      ensures (View(), decrypted) == Decrypted(old(View()), results, ct)
    {
      hide OutputName, ResultTaken;
      decrypted := ct;
      if !setup.initialized {
        return;
      }
      var known := ct in probed;
      var name;
      if known {
        name := probed[ct];
      } else {
        name := NextProbeName();
      }
      if setup.recording {
        if !known {
          world := world.Calling(Probe(name, world.Elements(ct)));
          probed := probed[ct := name];
        }
        return;
      }
      if setup.replaying {
        EnsureReplayed(simulating);
        decrypted := TakeResult(ct, name, fetching);
      }
    }

    method OnMakePlaintext(present: bool, nested: seq<Nested>)
      requires AllMayNest(nested, facadeIo, true)
      modifies this
      ensures View() == Encoded(old(View()), present)
      decreases |nested|, 1
    {
      hide PlaintextName;
      if !setup.initialized {
        return;
      }
      if setup.mode == Dormant || setup.mode == Uninitialized {
        return;
      }
      if encoding {
        return;
      }
      encoding := true;
      var name := PlaintextName(plaintexts);
      plaintexts := plaintexts + 1;
      if setup.mode == Record || setup.mode == Cooperative {
        if present {
          world := world.Calling(TagPlaintext(name));
          Reenter(nested);
        }
        encoding := false;
        return;
      }
      world := world.Calling(LoadPlaintext(name));
      Reenter(nested);
      encoding := false;
    }
  }

  /** Before the context is loaded. */
  function Idle(): State {
    State(Setup(Uninitialized, false, false, false, false), false, false, false, false, 0, 0, map[], map[], {},
          World(false, [], 0, map[], map[]))
  }
}
