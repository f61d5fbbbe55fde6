/** Two runs of one host program, one that records and one that replays: the same names
    for everything the facade tags and probes, and on replay the recorded values. */
module FacadeRuns {
  import opened Facade

  /** What the host does. The value is what the ciphertext holds on the recording run. */
  datatype Event =
    | Load(path: string, present: bool)
    | Save(path: string, ct: nat, value: Value)
    | Reveal(ct: nat, value: Value)
    | Encode
  {
    predicate IsOutput() { Save? || Reveal? }
    predicate IsInput() { Load? && present && !IsProbeFile(path) }
  }

  // ----- runs -----

  datatype Outcome = Outcome(state: State, shown: seq<Value>)

  function Started(cached: bool, contents: map<Id, Value>): State {
    var s := ContextLoaded(Idle(), true, false, cached);
    s.(world := s.world.(elements := contents))
  }

  /** SerializeToFile: the hook, and the caller's own write unless it is skipped. */
  function Written(s: State, results: map<string, Value>, path: string, ct: Id): State {
    var r := Serialized(s, results, path, ct);
    if r.1 then r.0 else r.0.(world := r.0.world.Writing(path, r.0.world.Elements(ct)))
  }

  /** On the recording run every ciphertext holds what the host computed. */
  function Holding(s: State, ct: nat, value: Value, live: bool): State {
    if live then s.(world := s.world.Setting(Host(ct), value)) else s
  }

  function FileValue(s: State, path: string): Value {
    if path in s.world.files then s.world.files[path] else []
  }

  /** One step of the host, and the value it shows: in the file, or decrypted. */
  function Step(s: State, results: map<string, Value>, e: Event, live: bool): Outcome {
    match e
    case Load(path, present) => Outcome(Deserialized(s, path, present), [])
    case Save(path, ct, value) =>
      var t := Written(Holding(s, ct, value, live), results, path, Host(ct));
      Outcome(t, [FileValue(t, path)])
    case Reveal(ct, value) =>
      var r := Decrypted(Holding(s, ct, value, live), results, Host(ct));
      Outcome(r.0, [r.0.world.Elements(r.1)])
    case Encode => Outcome(Encoded(s, live), [])
  }

  function Run(s: State, results: map<string, Value>, es: seq<Event>, live: bool): Outcome {
    if |es| == 0 then Outcome(s, [])
    else
      var before := Run(s, results, es[..|es| - 1], live);
      var o := Step(before.state, results, es[|es| - 1], live);
      Outcome(o.state, before.shown + o.shown)
  }

  function RecordRun(es: seq<Event>): Outcome {
    Run(Started(false, map[]), map[], es, true)
  }

  function ReplayRun(es: seq<Event>, results: map<string, Value>, contents: map<Id, Value>): Outcome {
    Run(Started(true, contents), results, es, false)
  }

  // ----- names, as the host's events fix them -----

  /** The name each ciphertext has, and how many were made up. */
  datatype Naming = Naming(names: map<nat, string>, minted: nat)

  /** A save is named after its file, a decrypt after its ciphertext. */
  function NameOf(n: Naming, e: Event): string
    requires e.IsOutput()
  {
    if e.Save? then Stem(e.path) else if e.ct in n.names then n.names[e.ct] else OutputName(n.minted)
  }

  function Renamed(n: Naming, e: Event): Naming {
    if e.IsOutput() then
      Naming(n.names[e.ct := NameOf(n, e)], if e.Reveal? && e.ct !in n.names then n.minted + 1 else n.minted)
    else n
  }

  function NamingAfter(es: seq<Event>): Naming {
    if |es| == 0 then Naming(map[], 0) else Renamed(NamingAfter(es[..|es| - 1]), es[|es| - 1])
  }

  /** The name and the recorded value of every output, in order. */
  function Outputs(es: seq<Event>): seq<(string, Value)> {
    if |es| == 0 then []
    else
      var e := es[|es| - 1];
      Outputs(es[..|es| - 1]) + (if e.IsOutput() then [(NameOf(NamingAfter(es[..|es| - 1]), e), e.value)] else [])
  }

  function LoadsOf(es: seq<Event>, base: string): nat {
    if |es| == 0 then 0
    else
      var e := es[|es| - 1];
      LoadsOf(es[..|es| - 1], base) + (if e.IsInput() && UniqueName(e.path) == base then 1 else 0)
  }

  /** Each load's own name: how often its path's name was loaded before it. */
  function InputsOf(es: seq<Event>): seq<string> {
    if |es| == 0 then []
    else
      var e := es[|es| - 1];
      var before := es[..|es| - 1];
      InputsOf(before) +
      (if e.IsInput() then [InputName(UniqueName(e.path), LoadsOf(before, UniqueName(e.path)))] else [])
  }

  function Encodes(es: seq<Event>): nat {
    if |es| == 0 then 0 else Encodes(es[..|es| - 1]) + (if es[|es| - 1].Encode? then 1 else 0)
  }

  function PlaintextNames(n: nat): seq<string> {
    if n == 0 then [] else PlaintextNames(n - 1) + [PlaintextName(n - 1)]
  }

  // ----- what a run told the library -----

  function InputNames(calls: seq<Call>): seq<string> {
    if |calls| == 0 then []
    else
      var c := calls[|calls| - 1];
      InputNames(calls[..|calls| - 1]) + (if c.TagInput? then [c.name] else [])
  }

  /** The plaintexts a recording writes and a replay reads back. */
  function PlaintextsNamed(calls: seq<Call>): seq<string> {
    if |calls| == 0 then []
    else
      var c := calls[|calls| - 1];
      PlaintextsNamed(calls[..|calls| - 1]) + (if c.TagPlaintext? || c.LoadPlaintext? then [c.name] else [])
  }

  /** The probes the recording made: the last one of each name is what a result is. */
  function Recorded(calls: seq<Call>): map<string, Value> {
    if |calls| == 0 then map[]
    else
      var c := calls[|calls| - 1];
      var before := Recorded(calls[..|calls| - 1]);
      if c.Probe? then before[c.name := c.value] else before
  }

  /** Keys are tagged once, before any input; the replay runs once, before any fetch. */
  predicate Ordered(calls: seq<Call>) {
    |calls| == 0 ||
    (var before := calls[..|calls| - 1];
     && Ordered(before)
     && match calls[|calls| - 1]
        case TagKeys => TagKeys !in before
        case TagInput(_, _) => TagKeys in before
        case Simulate => Simulate !in before
        case Fetch(_) => Simulate in before
        case _ => true)
  }

  lemma Told(calls: seq<Call>, c: Call)
    ensures InputNames(calls + [c]) == InputNames(calls) + (if c.TagInput? then [c.name] else [])
    ensures PlaintextsNamed(calls + [c])
         == PlaintextsNamed(calls) + (if c.TagPlaintext? || c.LoadPlaintext? then [c.name] else [])
    ensures Recorded(calls + [c]) == if c.Probe? then Recorded(calls)[c.name := c.value] else Recorded(calls)
  {
    assert (calls + [c])[..|calls|] == calls;
  }

  lemma ToldInOrder(calls: seq<Call>, c: Call)
    requires Ordered(calls)
    requires c == TagKeys ==> TagKeys !in calls
    requires c.TagInput? ==> TagKeys in calls
    requires c == Simulate ==> Simulate !in calls
    requires c.Fetch? ==> Simulate in calls
    ensures Ordered(calls + [c])
  {
    assert (calls + [c])[..|calls|] == calls;
  }

  // ----- the invariants of a run -----

  /** The run is set up, in one mode or the other, and no hook is under way. */
  predicate Settled(s: State, live: bool) {
    && s.setup == (if live then Setup(Record, true, true, true, false) else Setup(Replay, true, true, false, true))
    && !s.encoding && !s.facadeIo
  }

  ghost predicate NamesAgree(s: State, n: Naming) {
    && s.outputs == n.minted
    && (forall ct: nat :: Host(ct) in s.probed <==> ct in n.names)
    && (forall ct: nat :: ct in n.names ==> s.probed[Host(ct)] == n.names[ct])
  }

  ghost predicate InputsAgree(s: State, es: seq<Event>) {
    && InputNames(s.world.calls) == InputsOf(es)
    && forall base :: Loaded(s.loads, base) == LoadsOf(es, base)
  }

  predicate PlaintextsAgree(s: State, es: seq<Event>) {
    PlaintextsNamed(s.world.calls) == PlaintextNames(Encodes(es)) && s.plaintexts == Encodes(es)
  }

  predicate InOrder(s: State) {
    && Ordered(s.world.calls)
    && (s.keysTagged <==> TagKeys in s.world.calls)
    && (s.replayed <==> Simulate in s.world.calls)
  }

  /** A substituted ciphertext holds the result of its name. */
  ghost predicate Fresh(s: State, results: map<string, Value>) {
    && (forall ct :: ct in s.substituted ==> ct in s.probed && s.probed[ct] in results)
    && (forall ct :: ct in s.substituted ==> s.world.Elements(ct) == results[s.probed[ct]])
    && (forall n: nat :: Hardware(n) in s.substituted ==> n < s.world.fetched)
    && (s.substituted != {} ==> s.replayed)
  }

  // ----- one hook at a time -----

  /** t is s but for what it told the library and counted. */
  predicate SameCiphertexts(s: State, t: State) {
    && t.setup == s.setup && t.encoding == s.encoding && t.facadeIo == s.facadeIo
    && t.outputs == s.outputs && t.probed == s.probed && t.substituted == s.substituted && t.replayed == s.replayed
    && t.world.elements == s.world.elements && t.world.fetched == s.world.fetched
  }

  lemma SameKeeps(s: State, t: State, n: Naming, results: map<string, Value>, live: bool)
    requires SameCiphertexts(s, t) && Settled(s, live) && NamesAgree(s, n) && Fresh(s, results)
    ensures Settled(t, live) && NamesAgree(t, n) && Fresh(t, results)
  {
    assert forall ct :: t.world.Elements(ct) == s.world.Elements(ct);
  }

  lemma KeysKeep(s: State)
    requires InOrder(s) && s.setup.hasContext
    ensures var t := KeysTagged(s); SameCiphertexts(s, t) && t.loads == s.loads && InOrder(t) && t.keysTagged
    ensures InputNames(KeysTagged(s).world.calls) == InputNames(s.world.calls)
    ensures PlaintextsNamed(KeysTagged(s).world.calls) == PlaintextsNamed(s.world.calls)
    ensures KeysTagged(s).plaintexts == s.plaintexts
    ensures Recorded(KeysTagged(s).world.calls) == Recorded(s.world.calls)
  {
    hide Ordered, InputNames, PlaintextsNamed, Recorded;
    if !s.keysTagged {
      ToldInOrder(s.world.calls, TagKeys);
      Told(s.world.calls, TagKeys);
    }
  }

  lemma LoadKeeps(s: State, path: string, present: bool)
    requires InOrder(s) && s.setup.hasContext
    ensures var t := Deserialized(s, path, present); SameCiphertexts(s, t) && InOrder(t)
  {
    hide Ordered, IsProbeFile, UniqueName, InputName, KeysTagged;
    KeysKeep(s);
    var base := UniqueName(path);
    ToldInOrder(KeysTagged(s).world.calls, TagInput(InputName(base, Loaded(s.loads, base)), path));
  }

  lemma TellKeeps(s: State, c: Call)
    requires InOrder(s) && (c.TagPlaintext? || c.LoadPlaintext? || c.Probe?)
    ensures InOrder(s.Calling(c)) && SameCiphertexts(s, s.Calling(c))
  {
    hide Ordered;
    ToldInOrder(s.world.calls, c);
  }

  lemma SameTwice(s: State, t: State, u: State)
    requires SameCiphertexts(s, t) && SameCiphertexts(t, u)
    ensures SameCiphertexts(s, u)
  {}

  lemma EncodeKeeps(s: State, live: bool)
    requires InOrder(s)
    ensures var t := Encoded(s, live); SameCiphertexts(s, t) && InOrder(t)
  {
    hide PlaintextName;
    var s1 := s.(plaintexts := s.plaintexts + 1);
    var name := PlaintextName(s.plaintexts);
    assert InOrder(s1) && SameCiphertexts(s, s1);
    hide InOrder;
    TellKeeps(s1, TagPlaintext(name));
    SameTwice(s, s1, s1.Calling(TagPlaintext(name)));
    TellKeeps(s1, LoadPlaintext(name));
    SameTwice(s, s1, s1.Calling(LoadPlaintext(name)));
    assert Encoded(s, live) in {s, s1, s1.Calling(TagPlaintext(name)), s1.Calling(LoadPlaintext(name))};
    hide SameCiphertexts, Encoded;
  }

  lemma ReplayedKeeps(s: State, n: Naming, results: map<string, Value>)
    requires Settled(s, false) && NamesAgree(s, n) && Fresh(s, results) && InOrder(s)
    ensures var t := Replayed(s);
      Settled(t, false) && NamesAgree(t, n) && Fresh(t, results) && InOrder(t) && t.replayed
  {
    hide Ordered;
    if !s.replayed {
      ToldInOrder(s.world.calls, Simulate);
    }
  }

  lemma CallKeeps(s: State, n: Naming, results: map<string, Value>, c: Call, live: bool)
    requires Settled(s, live) && NamesAgree(s, n) && Fresh(s, results) && InOrder(s)
    requires c.Probe? || (c.Fetch? && s.replayed)
    ensures var t := s.Calling(c); Settled(t, live) && NamesAgree(t, n) && Fresh(t, results) && InOrder(t)
  {
    hide Ordered;
    ToldInOrder(s.world.calls, c);
  }

  /** A replayed save: the named result, in the file and in the ciphertext. */
  lemma RefreshKeeps(s: State, n: Naming, results: map<string, Value>, path: string, ct: nat, name: string)
    requires Settled(s, false) && NamesAgree(s, n) && Fresh(s, results) && InOrder(s) && s.replayed && name in results
    ensures var t := Refreshed(s, path, Host(ct), name, results[name]);
      && Settled(t, false) && NamesAgree(t, n.(names := n.names[ct := name])) && Fresh(t, results) && InOrder(t)
      && FileValue(t, path) == results[name]
  {
    hide Ordered;
  }

  lemma SubstituteKeeps(s: State, n: Naming, results: map<string, Value>, ct: nat, name: string)
    requires Settled(s, false) && NamesAgree(s, n) && Fresh(s, results) && InOrder(s) && s.replayed && name in results
    requires Host(ct) !in s.substituted
    ensures var t := Substituted(s, Host(ct), name, results[name]);
      && Settled(t, false) && NamesAgree(t, n.(names := n.names[ct := name])) && Fresh(t, results) && InOrder(t)
      && t.world.Elements(Hardware(s.world.fetched)) == results[name]
  {
    hide Ordered;
  }

  lemma HoldingKeeps(s: State, n: Naming, ct: nat, value: Value)
    requires Settled(s, true) && NamesAgree(s, n) && InOrder(s)
    ensures var t := Holding(s, ct, value, true);
      && Settled(t, true) && NamesAgree(t, n) && InOrder(t) && t.world.Elements(Host(ct)) == value
      && t.world.calls == s.world.calls
  {
    hide Ordered;
  }

  // ----- the outputs, one step at a time -----

  /** What a step keeps, whichever run it is of. */
  ghost predicate Keeps(t: State, n: Naming, results: map<string, Value>, live: bool) {
    Settled(t, live) && NamesAgree(t, n) && InOrder(t) && (live || Fresh(t, results))
  }

  predicate HostPath(e: Event) {
    e.Save? ==> !IsProbeFile(e.path)
  }

  lemma RecordSave(s: State, n: Naming, e: Event)
    requires e.Save? && HostPath(e) && Keeps(s, n, map[], true)
    ensures var o := Step(s, map[], e, true);
      && Keeps(o.state, Renamed(n, e), map[], true) && o.shown == [e.value]
      && o.state.world.calls == s.world.calls + [Probe(Stem(e.path), e.value)]
  {
    hide Ordered, IsProbeFile, Stem;
    HoldingKeeps(s, n, e.ct, e.value);
    var t := Holding(s, e.ct, e.value, true);
    TellKeeps(t, Probe(Stem(e.path), e.value));
  }

  lemma RecordReveal(s: State, n: Naming, e: Event)
    requires e.Reveal? && Keeps(s, n, map[], true)
    ensures var o := Step(s, map[], e, true);
      && Keeps(o.state, Renamed(n, e), map[], true) && o.shown == [e.value]
      && o.state.world.calls == s.world.calls + (if e.ct in n.names then [] else [Probe(NameOf(n, e), e.value)])
  {
    hide Ordered, OutputName;
    HoldingKeeps(s, n, e.ct, e.value);
    var t := Holding(s, e.ct, e.value, true);
    if e.ct in n.names {
      assert n.names[e.ct := n.names[e.ct]] == n.names;
    } else {
      TellKeeps(t, Probe(OutputName(n.minted), e.value));
    }
  }

  lemma ReplaySave(s: State, n: Naming, e: Event, results: map<string, Value>)
    requires e.Save? && HostPath(e) && Keeps(s, n, results, false) && Stem(e.path) in results
    ensures var o := Step(s, results, e, false);
      && Keeps(o.state, Renamed(n, e), results, false) && o.shown == [results[Stem(e.path)]]
      && o.state.world.calls == Replayed(s).world.calls + [Fetch(Stem(e.path))]
  {
    hide Ordered, IsProbeFile, Stem, Refreshed, NamesAgree, Fresh, InOrder, Replayed;
    ReplayedKeeps(s, n, results);
    var name := Stem(e.path);
    CallKeeps(Replayed(s), n, results, Fetch(name), false);
    RefreshKeeps(Replayed(s).Calling(Fetch(name)), n, results, e.path, e.ct, name);
    RefreshedCalls(Replayed(s).Calling(Fetch(name)), e.path, Host(e.ct), name, results[name]);
  }

  lemma RefreshedCalls(s: State, path: string, ct: Id, name: string, value: Value)
    ensures Refreshed(s, path, ct, name, value).world.calls == s.world.calls
  {}

  lemma SubstitutedCalls(s: State, ct: Id, name: string, value: Value)
    ensures Substituted(s, ct, name, value).world.calls == s.world.calls
  {}

  lemma NameTakenKeeps(s: State, n: Naming, results: map<string, Value>, ct: nat)
    requires Settled(s, false) && NamesAgree(s, n) && Fresh(s, results) && InOrder(s)
    ensures var t := NameTaken(s, Host(ct));
      && Settled(t, false) && Fresh(t, results) && InOrder(t) && t.world == s.world && t.substituted == s.substituted
      && t.setup == s.setup && t.replayed == s.replayed
      && NamesAgree(t, Naming(n.names, if ct in n.names then n.minted else n.minted + 1))
    ensures NameFor(s, Host(ct)) == if ct in n.names then n.names[ct] else OutputName(n.minted)
  {
    hide Ordered, OutputName;
  }

  /** A decrypt on replay that has to fetch: the named result, in a ciphertext of its own. */
  lemma ReplayFetch(s: State, n: Naming, results: map<string, Value>, ct: nat, name: string)
    requires Settled(s, false) && NamesAgree(s, n) && Fresh(s, results) && InOrder(s) && s.replayed && name in results
    requires Host(ct) !in s.substituted
    ensures var r := ResultTaken(s, results, Host(ct), name);
      && Keeps(r.0, n.(names := n.names[ct := name]), results, false) && r.0.world.Elements(r.1) == results[name]
      && r.0.world.calls == s.world.calls + [Fetch(name)]
  {
    hide Ordered, Substituted, NamesAgree, Fresh, InOrder;
    CallKeeps(s, n, results, Fetch(name), false);
    var t := s.Calling(Fetch(name));
    SubstituteKeeps(t, n, results, ct, name);
    SubstitutedCalls(t, Host(ct), name, results[name]);
  }

  /** A ciphertext that holds its result already is decrypted as it is. */
  lemma ReplayKnown(s: State, n: Naming, results: map<string, Value>, ct: nat, name: string)
    requires Settled(s, false) && NamesAgree(s, n) && Fresh(s, results) && InOrder(s)
    requires Host(ct) in s.substituted && name == s.probed[Host(ct)]
    ensures var r := ResultTaken(s, results, Host(ct), name);
      && r == (s, Host(ct)) && Keeps(s, n.(names := n.names[ct := name]), results, false)
      && name in results && s.world.Elements(Host(ct)) == results[name]
  {
    hide Ordered;
    assert n.names[ct := n.names[ct]] == n.names;
  }

  lemma ReplayReveal(s: State, n: Naming, e: Event, results: map<string, Value>)
    requires e.Reveal? && Keeps(s, n, results, false) && NameOf(n, e) in results
    ensures var o := Step(s, results, e, false);
      && Keeps(o.state, Renamed(n, e), results, false) && o.shown == [results[NameOf(n, e)]]
      && o.state.world.calls
          == Replayed(s).world.calls + (if Host(e.ct) in s.substituted then [] else [Fetch(NameOf(n, e))])
  {
    hide Ordered, OutputName, ResultTaken, Fresh, InOrder;
    var name := NameOf(n, e);
    NameTakenKeeps(s, n, results, e.ct);
    var taken := Naming(n.names, if e.ct in n.names then n.minted else n.minted + 1);
    var s1 := NameTaken(s, Host(e.ct));
    ReplayedKeeps(s1, taken, results);
    var s2 := Replayed(s1);
    assert Decrypted(s, results, Host(e.ct)) == ResultTaken(s2, results, Host(e.ct), name);
    if Host(e.ct) in s.substituted {
      KnownIfSubstituted(s, n, results, e.ct);
      ReplayKnown(s2, taken, results, e.ct, name);
    } else {
      ReplayFetch(s2, taken, results, e.ct, name);
    }
  }

  lemma KnownIfSubstituted(s: State, n: Naming, results: map<string, Value>, ct: nat)
    requires NamesAgree(s, n) && Fresh(s, results) && Host(ct) in s.substituted
    ensures ct in n.names && s.probed[Host(ct)] == n.names[ct] && s.replayed
  {}

  // ----- inputs and plaintexts -----

  /** Whether a call names an input or a plaintext. */
  predicate Names(c: Call) {
    c.TagInput? || c.TagPlaintext? || c.LoadPlaintext?
  }

  lemma {:induction false} Unnamed(calls: seq<Call>, more: seq<Call>)
    requires forall c :: c in more ==> !Names(c)
    ensures InputNames(calls + more) == InputNames(calls) && PlaintextsNamed(calls + more) == PlaintextsNamed(calls)
  {
    if |more| == 0 {
      assert calls + more == calls;
    } else {
      var c := more[|more| - 1];
      assert c in more && calls + more == calls + more[..|more| - 1] + [c];
      Unnamed(calls, more[..|more| - 1]);
      Told(calls + more[..|more| - 1], c);
    }
  }

  /** The traces a step leaves, from those before it. */
  ghost predicate TracesStep(s: State, t: State, e: Event) {
    && InputNames(t.world.calls) == InputNames(s.world.calls)
       + (if e.IsInput() then [InputName(UniqueName(e.path), Loaded(s.loads, UniqueName(e.path)))] else [])
    && (forall base ::
          Loaded(t.loads, base) == Loaded(s.loads, base) + (if e.IsInput() && UniqueName(e.path) == base then 1 else 0))
    && PlaintextsNamed(t.world.calls)
        == PlaintextsNamed(s.world.calls) + (if e.Encode? then [PlaintextName(s.plaintexts)] else [])
    && t.plaintexts == s.plaintexts + (if e.Encode? then 1 else 0)
  }

  lemma LoadTraces(s: State, e: Event, live: bool)
    requires e.Load? && Settled(s, live) && InOrder(s)
    ensures TracesStep(s, Deserialized(s, e.path, e.present), e)
  {
    hide IsProbeFile, UniqueName, InputName, KeysTagged, InputNames, PlaintextsNamed, Ordered, Recorded;
    if e.IsInput() {
      KeysKeep(s);
      var base := UniqueName(e.path);
      Told(KeysTagged(s).world.calls, TagInput(InputName(base, Loaded(s.loads, base)), e.path));
    }
  }

  lemma EncodeTraces(s: State, live: bool)
    requires Settled(s, live)
    ensures TracesStep(s, Encoded(s, live), Encode)
  {
    hide PlaintextName, InputNames, PlaintextsNamed, Recorded;
    var name := PlaintextName(s.plaintexts);
    Told(s.world.calls, if live then TagPlaintext(name) else LoadPlaintext(name));
  }

  /** An output leaves no trace of that kind. */
  lemma OutputTraces(s: State, t: State, e: Event, more: seq<Call>)
    requires e.IsOutput() && SameCounts(s, t)
    requires t.world.calls == s.world.calls + more && forall c :: c in more ==> !Names(c)
    ensures TracesStep(s, t, e)
  {
    Unnamed(s.world.calls, more);
  }

  lemma OutputCounts(s: State, results: map<string, Value>, e: Event, live: bool)
    requires e.IsOutput()
    ensures SameCounts(s, Step(s, results, e, live).state)
  {
    hide Serialized, Decrypted;
  }

  // ----- whole runs -----

  ghost predicate Traces(s: State, es: seq<Event>) {
    InputsAgree(s, es) && PlaintextsAgree(s, es)
  }

  lemma Traced(s: State, t: State, before: seq<Event>, e: Event)
    requires Traces(s, before) && TracesStep(s, t, e)
    ensures Traces(t, before + [e])
  {
    hide UniqueName, InputName, PlaintextName, IsProbeFile, InputNames, PlaintextsNamed;
    var es := before + [e];
    assert es[..|es| - 1] == before && es[|es| - 1] == e;
    assert InputNames(t.world.calls) == InputsOf(es);
    forall base ensures Loaded(t.loads, base) == LoadsOf(es, base) {
      assert Loaded(t.loads, base)
          == LoadsOf(before, base) + (if e.IsInput() && UniqueName(e.path) == base then 1 else 0);
    }
  }

  function ValuesOf(outs: seq<(string, Value)>): (r: seq<Value>)
    ensures |r| == |outs|
    ensures forall i :: 0 <= i < |outs| ==> r[i] == outs[i].1
  {
    if |outs| == 0 then [] else ValuesOf(outs[..|outs| - 1]) + [outs[|outs| - 1].1]
  }

  predicate AllRecorded(results: map<string, Value>, outs: seq<(string, Value)>) {
    forall p :: p in outs ==> p.0 in results
  }

  function ResultsOf(results: map<string, Value>, outs: seq<(string, Value)>): (r: seq<Value>)
    requires AllRecorded(results, outs)
    ensures |r| == |outs|
    ensures forall i :: 0 <= i < |outs| ==> r[i] == results[outs[i].0]
  {
    if |outs| == 0 then []
    else
      assert outs[|outs| - 1] in outs;
      ResultsOf(results, outs[..|outs| - 1]) + [results[outs[|outs| - 1].0]]
  }

  predicate HostPaths(es: seq<Event>) {
    forall e :: e in es ==> HostPath(e)
  }

  lemma StartKeeps(cached: bool, contents: map<Id, Value>, results: map<string, Value>)
    ensures var s := Started(cached, contents); Keeps(s, NamingAfter([]), results, !cached) && Traces(s, [])
  {
    var calls := Started(cached, contents).world.calls;
    if !cached {
      ToldInOrder([], Start);
      Told([], Start);
      assert calls == [] + [Start];
    }
  }

  /** A step of either run, on what its events fix. */
  lemma QuietStep(s: State, n: Naming, results: map<string, Value>, e: Event, live: bool)
    requires !e.IsOutput() && Keeps(s, n, results, live)
    ensures var o := Step(s, results, e, live);
        Keeps(o.state, n, results, live) && TracesStep(s, o.state, e) && o.shown == []
  {
    hide Deserialized, Encoded, NamesAgree, Fresh, InOrder, TracesStep;
    var t := Step(s, results, e, live).state;
    if e.Load? {
      LoadTraces(s, e, live);
      LoadKeeps(s, e.path, e.present);
    } else {
      EncodeTraces(s, live);
      EncodeKeeps(s, live);
    }
    SameStays(s, t, n, results, live);
  }

  lemma SameStays(s: State, t: State, n: Naming, results: map<string, Value>, live: bool)
    requires SameCiphertexts(s, t) && Keeps(s, n, results, live) && InOrder(t)
    ensures Keeps(t, n, results, live)
  {
    hide InOrder;
    if live {
      assert NamesAgree(t, n);
    } else {
      SameKeeps(s, t, n, results, live);
    }
  }

  lemma RecordStep(s: State, n: Naming, e: Event)
    requires e.IsOutput() && HostPath(e) && Keeps(s, n, map[], true)
    ensures var o := Step(s, map[], e, true);
      && Keeps(o.state, Renamed(n, e), map[], true) && TracesStep(s, o.state, e) && o.shown == [e.value]
      && o.state.world.calls
          == s.world.calls + (if e.Reveal? && e.ct in n.names then [] else [Probe(NameOf(n, e), e.value)])
  {
    hide Keeps, Step, TracesStep, OutputName, Stem;
    var o := Step(s, map[], e, true);
    OutputCounts(s, map[], e, true);
    if e.Save? {
      RecordSave(s, n, e);
      OutputTraces(s, o.state, e, [Probe(NameOf(n, e), e.value)]);
    } else {
      RecordReveal(s, n, e);
      OutputTraces(s, o.state, e, if e.ct in n.names then [] else [Probe(NameOf(n, e), e.value)]);
    }
  }

  lemma ReplayStep(s: State, n: Naming, e: Event, results: map<string, Value>)
    requires e.IsOutput() && HostPath(e) && Keeps(s, n, results, false) && NameOf(n, e) in results
    ensures var o := Step(s, results, e, false);
      Keeps(o.state, Renamed(n, e), results, false) && TracesStep(s, o.state, e) && o.shown == [results[NameOf(n, e)]]
  {
    hide Keeps, Step, TracesStep, OutputName, Stem;
    var o := Step(s, results, e, false);
    OutputCounts(s, results, e, false);
    var first := if s.replayed then [] else [Simulate];
    assert Replayed(s).world.calls == s.world.calls + first;
    if e.Save? {
      ReplaySave(s, n, e, results);
      assert o.state.world.calls == s.world.calls + (first + [Fetch(NameOf(n, e))]);
      OutputTraces(s, o.state, e, first + [Fetch(NameOf(n, e))]);
    } else {
      ReplayReveal(s, n, e, results);
      var last := if Host(e.ct) in s.substituted then [] else [Fetch(NameOf(n, e))];
      assert o.state.world.calls == s.world.calls + (first + last);
      OutputTraces(s, o.state, e, first + last);
    }
  }

  /** Every name an output has was probed, and every probe is of some output. */
  ghost predicate Probed(recorded: map<string, Value>, outs: seq<(string, Value)>, names: map<nat, string>) {
    && AllRecorded(recorded, outs)
    && (forall name :: name in recorded ==> (name, recorded[name]) in outs)
    && (forall ct :: ct in names ==> names[ct] in recorded)
  }

  ghost predicate ProbesAgree(recorded: map<string, Value>, es: seq<Event>) {
    Probed(recorded, Outputs(es), NamingAfter(es).names)
  }

  lemma ProbeAdded(recorded: map<string, Value>, outs: seq<(string, Value)>, names: map<nat, string>,
                   ct: nat, name: string, value: Value)
    requires Probed(recorded, outs, names)
    ensures Probed(recorded[name := value], outs + [(name, value)], names[ct := name])
  {
    assert (name, value) in outs + [(name, value)];
  }

  lemma ProbeKnown(recorded: map<string, Value>, outs: seq<(string, Value)>, names: map<nat, string>, ct: nat,
          value: Value)
    requires Probed(recorded, outs, names) && ct in names
    ensures Probed(recorded, outs + [(names[ct], value)], names[ct := names[ct]])
  {}

  lemma OutputProbed(calls: seq<Call>, es: seq<Event>, e: Event)
    requires e.IsOutput() && ProbesAgree(Recorded(calls), es)
    ensures var n := NamingAfter(es);
      ProbesAgree(
        Recorded(calls + (if e.Reveal? && e.ct in n.names then [] else [Probe(NameOf(n, e), e.value)])), es + [e])
  {
    hide Stem, OutputName, Recorded, Probed;
    var n := NamingAfter(es);
    var all := es + [e];
    assert all[..|all| - 1] == es && all[|all| - 1] == e;
    assert Outputs(all) == Outputs(es) + [(NameOf(n, e), e.value)];
    if e.Reveal? && e.ct in n.names {
      assert calls + [] == calls;
      ProbeKnown(Recorded(calls), Outputs(es), n.names, e.ct, e.value);
    } else {
      Told(calls, Probe(NameOf(n, e), e.value));
      ProbeAdded(Recorded(calls), Outputs(es), n.names, e.ct, NameOf(n, e), e.value);
    }
  }

  lemma QuietProbed(recorded: map<string, Value>, es: seq<Event>, e: Event)
    requires !e.IsOutput() && ProbesAgree(recorded, es)
    ensures ProbesAgree(recorded, es + [e]) && Outputs(es + [e]) == Outputs(es)
  {
    var all := es + [e];
    assert all[..|all| - 1] == es && all[|all| - 1] == e;
  }

  lemma Snoc(es: seq<Event>)
    requires |es| > 0
    ensures es == es[..|es| - 1] + [es[|es| - 1]]
    ensures NamingAfter(es) == Renamed(NamingAfter(es[..|es| - 1]), es[|es| - 1])
  {
    hide Renamed;
  }

  lemma HostPathsBefore(es: seq<Event>)
    requires |es| > 0 && HostPaths(es)
    ensures HostPaths(es[..|es| - 1]) && HostPath(es[|es| - 1])
  {
    hide HostPath;
    assert forall e :: e in es[..|es| - 1] ==> e in es;
    assert es[|es| - 1] in es;
  }

  /** After recording: every invariant, the host's own values, and a probe for every name. */
  lemma {:induction false} RecordAfter(es: seq<Event>)
    requires HostPaths(es)
    ensures var o := RecordRun(es);
      && Keeps(o.state, NamingAfter(es), map[], true) && Traces(o.state, es)
      && o.shown == ValuesOf(Outputs(es)) && ProbesAgree(Recorded(o.state.world.calls), es)
  {
    hide Keeps, Traces, Step, ProbesAgree, HostPath, NamingAfter, Renamed, Started;
    if |es| == 0 {
      StartKeeps(false, map[], map[]);
      assert ProbesAgree(Recorded(RecordRun(es).state.world.calls), es) by {
        StartRecords();
      }
    } else {
      var before, e := es[..|es| - 1], es[|es| - 1];
      Snoc(es);
      HostPathsBefore(es);
      RecordAfter(before);
      RecordMore(before, e, RecordRun(before));
    }
  }

  lemma StartRecords()
    ensures ProbesAgree(Recorded(Started(false, map[]).world.calls), [])
  {
    Told([], Start);
    assert Started(false, map[]).world.calls == [] + [Start];
  }

  lemma RecordMore(before: seq<Event>, e: Event, o: Outcome)
    requires HostPath(e) && Keeps(o.state, NamingAfter(before), map[], true) && Traces(o.state, before)
    requires o.shown == ValuesOf(Outputs(before)) && ProbesAgree(Recorded(o.state.world.calls), before)
    ensures var t, es := Step(o.state, map[], e, true), before + [e];
      && Keeps(t.state, Renamed(NamingAfter(before), e), map[], true) && Traces(t.state, es)
      && o.shown + t.shown == ValuesOf(Outputs(es)) && ProbesAgree(Recorded(t.state.world.calls), es)
  {
    hide Keeps, Traces, Step, ProbesAgree, HostPath, TracesStep, NameOf, Recorded;
    var t, es := Step(o.state, map[], e, true), before + [e];
    assert es[..|es| - 1] == before && es[|es| - 1] == e;
    var n := NamingAfter(before);
    if e.IsOutput() {
      RecordStep(o.state, n, e);
      OutputProbed(o.state.world.calls, before, e);
      assert Outputs(es) == Outputs(before) + [(NameOf(n, e), e.value)];
      assert Outputs(es)[..|Outputs(before)|] == Outputs(before);
    } else {
      QuietStep(o.state, n, map[], e, true);
      QuietProbed(Recorded(o.state.world.calls), before, e);
      QuietRecords(o.state, n, e);
    }
    Traced(o.state, t.state, before, e);
  }

  lemma QuietRecords(s: State, n: Naming, e: Event)
    requires !e.IsOutput() && Keeps(s, n, map[], true)
    ensures Recorded(Step(s, map[], e, true).state.world.calls) == Recorded(s.world.calls)
  {
    hide Recorded, IsProbeFile, UniqueName, InputName, PlaintextName, Ordered, KeysTagged, NamesAgree;
    if e.Load? {
      if e.IsInput() {
        KeysKeep(s);
        var base := UniqueName(e.path);
        Told(KeysTagged(s).world.calls, TagInput(InputName(base, Loaded(s.loads, base)), e.path));
      }
    } else {
      Told(s.world.calls, TagPlaintext(PlaintextName(s.plaintexts)));
    }
  }

  /** After replaying: the same invariants, and the result of every output's name. */
  lemma {:induction false} ReplayAfter(es: seq<Event>, results: map<string, Value>, contents: map<Id, Value>)
    requires HostPaths(es) && AllRecorded(results, Outputs(es))
    ensures var o := ReplayRun(es, results, contents);
      && Keeps(o.state, NamingAfter(es), results, false) && Traces(o.state, es)
      && o.shown == ResultsOf(results, Outputs(es))
  {
    hide Keeps, Traces, Step, HostPath, NamingAfter, Renamed, Started;
    if |es| == 0 {
      StartKeeps(true, contents, results);
    } else {
      var before, e := es[..|es| - 1], es[|es| - 1];
      Snoc(es);
      HostPathsBefore(es);
      assert forall p :: p in Outputs(before) ==> p in Outputs(es);
      ReplayAfter(before, results, contents);
      ReplayMore(before, e, ReplayRun(before, results, contents), results);
    }
  }

  lemma ReplayMore(before: seq<Event>, e: Event, o: Outcome, results: map<string, Value>)
    requires HostPath(e) && Keeps(o.state, NamingAfter(before), results, false) && Traces(o.state, before)
    requires AllRecorded(results, Outputs(before)) && AllRecorded(results, Outputs(before + [e]))
    requires o.shown == ResultsOf(results, Outputs(before))
    ensures var t, es := Step(o.state, results, e, false), before + [e];
      && Keeps(t.state, Renamed(NamingAfter(before), e), results, false) && Traces(t.state, es)
      && o.shown + t.shown == ResultsOf(results, Outputs(es))
  {
    hide Keeps, Traces, Step, HostPath, TracesStep, NameOf;
    var t, es := Step(o.state, results, e, false), before + [e];
    assert es[..|es| - 1] == before && es[|es| - 1] == e;
    var n := NamingAfter(before);
    if e.IsOutput() {
      var out := (NameOf(n, e), e.value);
      assert Outputs(es) == Outputs(before) + [out] && out in Outputs(es);
      ReplayStep(o.state, n, e, results);
      assert Outputs(es)[..|Outputs(before)|] == Outputs(before);
    } else {
      QuietStep(o.state, n, results, e, false);
    }
    Traced(o.state, t.state, before, e);
  }

  // ----- record and replay agree -----

  /** No name stands for two values. */
  predicate OneValuePerName(outs: seq<(string, Value)>) {
    forall p, q :: p in outs && q in outs && p.0 == q.0 ==> p.1 == q.1
  }

  /** The replay gives the host exactly what the recording gave it, whatever its own
      ciphertexts hold, if and only if no name stands for two values. */
  lemma ReplayShowsTheRecording(es: seq<Event>, contents: map<Id, Value>)
    requires HostPaths(es)
    ensures var r := RecordRun(es);
      var p := ReplayRun(es, Recorded(r.state.world.calls), contents);
      p.shown == r.shown <==> OneValuePerName(Outputs(es))
  {
    RecordAfter(es);
    var results := Recorded(RecordRun(es).state.world.calls);
    assert AllRecorded(results, Outputs(es));
    ReplayAfter(es, results, contents);
    hide *;
    ShownIffOne(es, results);
  }

  lemma ShownIffOne(es: seq<Event>, results: map<string, Value>)
    requires ProbesAgree(results, es)
    ensures AllRecorded(results, Outputs(es))
    ensures ResultsOf(results, Outputs(es)) == ValuesOf(Outputs(es)) <==> OneValuePerName(Outputs(es))
  {
    hide Outputs, NamingAfter, ResultsOf, ValuesOf;
    var outs := Outputs(es);
    if OneValuePerName(outs) {
      forall i | 0 <= i < |outs| ensures ResultsOf(results, outs)[i] == ValuesOf(outs)[i] {
        assert outs[i] in outs;
        assert (outs[i].0, results[outs[i].0]) in outs;
      }
    }
    if ResultsOf(results, outs) == ValuesOf(outs) {
      forall p, q | p in outs && q in outs && p.0 == q.0 ensures p.1 == q.1 {
        var i :| 0 <= i < |outs| && outs[i] == p;
        var j :| 0 <= j < |outs| && outs[j] == q;
        assert ResultsOf(results, outs)[i] == ValuesOf(outs)[i] && ResultsOf(results, outs)[j] == ValuesOf(outs)[j];
      }
    }
  }

  /** Both runs tag the same inputs and plaintexts under the same names, in the same order. */
  lemma SameTags(es: seq<Event>, contents: map<Id, Value>)
    requires HostPaths(es)
    ensures var r := RecordRun(es).state;
      var p := ReplayRun(es, Recorded(r.world.calls), contents).state;
      && InputNames(r.world.calls) == InputNames(p.world.calls) == InputsOf(es)
      && PlaintextsNamed(r.world.calls) == PlaintextsNamed(p.world.calls) == PlaintextNames(Encodes(es))
      && r.outputs == p.outputs == NamingAfter(es).minted
  {
    RecordAfter(es);
    var results := Recorded(RecordRun(es).state.world.calls);
    assert AllRecorded(results, Outputs(es));
    ReplayAfter(es, results, contents);
    hide ReplayRun, RecordRun, Recorded, InputsOf, PlaintextNames, InputNames, PlaintextsNamed, NamingAfter, Outputs;
  }

  /** In both runs keys are tagged once, before the first input, and the replay runs at
      most once, before the first fetch. */
  lemma RunsInOrder(es: seq<Event>, contents: map<Id, Value>)
    requires HostPaths(es)
    ensures var r := RecordRun(es).state;
      Ordered(r.world.calls) && Ordered(ReplayRun(es, Recorded(r.world.calls), contents).state.world.calls)
  {
    RecordAfter(es);
    var results := Recorded(RecordRun(es).state.world.calls);
    assert AllRecorded(results, Outputs(es));
    ReplayAfter(es, results, contents);
    hide ReplayRun, RecordRun, Recorded, NamingAfter, Outputs, Ordered;
  }
}
