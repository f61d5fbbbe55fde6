/** Consequences for a host program: when its names cannot clash, what a clash does,
    and that hooks the facade's own work triggers change nothing. */
module FacadeNames {
  import opened Facade
  import opened FacadeRuns
  import opened NumberedNames
  import Symbolic

  // ----- names that tell their parts apart -----

  lemma InputNameInjective(a: string, b: string, m: nat, n: nat)
    requires InputName(a, m) == InputName(b, n)
    ensures a == b && m == n
  {
    assert a + "_load_" == a + "_load" + "_" && b + "_load_" == b + "_load" + "_";
    NumberTold(a + "_load", b + "_load", m, n);
    assert a == (a + "_load")[..|a|] && b == (b + "_load")[..|b|];
  }

  lemma PlaintextIsNoInput(base: string, m: nat, n: nat)
    ensures PlaintextName(m) != InputName(base, n)
  {
    if PlaintextName(m) == InputName(base, n) {
      assert "pt_" == "pt" + "_" && base + "_load_" == base + "_load" + "_";
      NumberTold("pt", base + "_load", m, n);
    }
  }

  lemma PlaintextNameInjective(m: nat, n: nat)
    requires PlaintextName(m) == PlaintextName(n)
    ensures m == n
  {
    assert "pt_" == "pt" + "_";
    NumberTold("pt", "pt", m, n);
  }

  predicate Distinct(names: seq<string>) {
    forall i, j :: 0 <= i < j < |names| ==> names[i] != names[j]
  }

  lemma {:induction false} InputsCounted(es: seq<Event>, name: string)
    requires name in InputsOf(es)
    ensures exists base, n: nat :: n < LoadsOf(es, base) && name == InputName(base, n)
  {
    hide InputName, UniqueName, IsProbeFile;
    var before, e := es[..|es| - 1], es[|es| - 1];
    if name in InputsOf(before) {
      InputsCounted(before, name);
    } else {
      var base := UniqueName(e.path);
      assert LoadsOf(before, base) < LoadsOf(es, base) && name == InputName(base, LoadsOf(before, base));
    }
  }

  /** Every load has its own name, although different paths may come to the same one. */
  lemma {:induction false} InputsAreDistinct(es: seq<Event>)
    ensures Distinct(InputsOf(es))
  {
    hide InputName, UniqueName, IsProbeFile;
    if |es| > 0 {
      var before, e := es[..|es| - 1], es[|es| - 1];
      InputsAreDistinct(before);
      if e.IsInput() {
        var base := UniqueName(e.path);
        var name := InputName(base, LoadsOf(before, base));
        if name in InputsOf(before) {
          InputsCounted(before, name);
          var b, n: nat :| n < LoadsOf(before, b) && name == InputName(b, n);
          InputNameInjective(b, base, n, LoadsOf(before, base));
        }
      }
    }
  }

  lemma {:induction false} PlaintextAt(n: nat)
    ensures |PlaintextNames(n)| == n && forall k: nat :: k < n ==> PlaintextNames(n)[k] == PlaintextName(k)
  {
    hide PlaintextName;
    if n > 0 { PlaintextAt(n - 1); }
  }

  /** No two of all inputs and plaintexts that the events name have one name. */
  lemma AllNamesApart(es: seq<Event>, n: nat)
    ensures Distinct(InputsOf(es) + PlaintextNames(n))
  {
    InputsAreDistinct(es);
    PlaintextAt(n);
    hide InputsOf, PlaintextNames, InputName, PlaintextName, UniqueName;
    var names, inputs := PlaintextNames(n), InputsOf(es);
    forall i, j | 0 <= i < j < |inputs + names| ensures (inputs + names)[i] != (inputs + names)[j] {
      if j >= |inputs| && i < |inputs| {
        assert inputs[i] in inputs;
        InputsCounted(es, inputs[i]);
        var base, k: nat :| k < LoadsOf(es, base) && inputs[i] == InputName(base, k);
        PlaintextIsNoInput(base, j - |inputs|, k);
      } else if i >= |inputs| {
        if names[i - |inputs|] == names[j - |inputs|] { PlaintextNameInjective(i - |inputs|, j - |inputs|); }
      }
    }
  }

  /** The k-th plaintext of a run, recorded or replayed, is called by its number k; no two
      plaintexts and no two inputs have one name, and no plaintext has an input's. */
  lemma NamesAreDistinct(es: seq<Event>, contents: map<Id, Value>)
    requires HostPaths(es)
    ensures var r := RecordRun(es).state;
      var p := ReplayRun(es, Recorded(r.world.calls), contents).state;
      && |PlaintextsNamed(r.world.calls)| == |PlaintextsNamed(p.world.calls)| == Encodes(es)
      && (forall k: nat :: k < Encodes(es) ==>
            PlaintextsNamed(r.world.calls)[k] == PlaintextsNamed(p.world.calls)[k] == PlaintextName(k))
      && Distinct(InputNames(r.world.calls) + PlaintextsNamed(r.world.calls))
      && Distinct(InputNames(p.world.calls) + PlaintextsNamed(p.world.calls))
  {
    SameTags(es, contents);
    PlaintextAt(Encodes(es));
    AllNamesApart(es, Encodes(es));
    hide ReplayRun, RecordRun, Recorded, InputsOf, PlaintextNames, InputNames, PlaintextsNamed, NamingAfter, Outputs;
    hide InputName, PlaintextName, UniqueName, Distinct;
  }

  // ----- when no name stands for two values -----

  /** No two ciphertexts share an identity. */
  predicate Unreused(es: seq<Event>) {
    forall e, f :: e in es && f in es && e.IsOutput() && f.IsOutput() && e.ct == f.ct ==> e.value == f.value
  }

  /** Different ciphertexts are saved under different stems, none of them a made-up name. */
  ghost predicate StemsApart(es: seq<Event>) {
    && (forall e, f :: e in es && f in es && e.Save? && f.Save? && Stem(e.path) == Stem(f.path) ==> e.ct == f.ct)
    && (forall e, n: nat :: e in es && e.Save? ==> Stem(e.path) != OutputName(n))
  }

  /** Every output's name and ciphertext. */
  function Owners(es: seq<Event>): seq<(string, nat)> {
    if |es| == 0 then []
    else
      var e := es[|es| - 1];
      Owners(es[..|es| - 1]) + (if e.IsOutput() then [(NameOf(NamingAfter(es[..|es| - 1]), e), e.ct)] else [])
  }

  /** Where a name comes from: a file it is saved to, or a number made up for it. */
  ghost predicate Sourced(es: seq<Event>, name: string, ct: nat) {
    || (exists e :: e in es && e.Save? && e.ct == ct && Stem(e.path) == name)
    || (exists k: nat :: k < NamingAfter(es).minted && name == OutputName(k))
  }

  /** One ciphertext to a name, and the name each has is one of its own. */
  ghost predicate OneOwner(es: seq<Event>) {
    && (forall p, q :: p in Owners(es) && q in Owners(es) && p.0 == q.0 ==> p.1 == q.1)
    && (forall p :: p in Owners(es) ==> Sourced(es, p.0, p.1))
    && (forall ct :: ct in NamingAfter(es).names ==> (NamingAfter(es).names[ct], ct) in Owners(es))
  }

  lemma OutputNameInjective(m: nat, n: nat)
    requires OutputName(m) == OutputName(n)
    ensures m == n
  {
    assert "output_" == "output" + "_";
    NumberTold("output", "output", m, n);
  }

  lemma SourcedStill(before: seq<Event>, e: Event, name: string, ct: nat)
    requires Sourced(before, name, ct)
    ensures Sourced(before + [e], name, ct)
  {
    hide OutputName, Stem, NameOf;
    var es := before + [e];
    assert es[..|es| - 1] == before && es[|es| - 1] == e;
    if f :| f in before && f.Save? && f.ct == ct && Stem(f.path) == name {
      assert f in es;
    }
  }

  /** A new output's name is nobody else's. */
  lemma NewOwner(before: seq<Event>, e: Event, p: (string, nat))
    requires e.IsOutput() && OneOwner(before) && StemsApart(before + [e])
    requires p in Owners(before) && p.0 == NameOf(NamingAfter(before), e)
    ensures p.1 == e.ct
  {
    hide OutputName, Stem, NamingAfter, Owners;
    var es := before + [e];
    var n := NamingAfter(before);
    assert e in es && forall f :: f in before ==> f in es;
    if e.Reveal? && e.ct in n.names {
      assert (n.names[e.ct], e.ct) in Owners(before);
    } else if f :| f in before && f.Save? && f.ct == p.1 && Stem(f.path) == p.0 {
      assert f in es;
    } else {
      var k: nat :| k < n.minted && p.0 == OutputName(k);
      if e.Reveal? { OutputNameInjective(k, n.minted); }
    }
  }

  lemma NewSource(before: seq<Event>, e: Event)
    requires e.IsOutput() && OneOwner(before)
    ensures Sourced(before + [e], NameOf(NamingAfter(before), e), e.ct)
  {
    hide OutputName, Stem, Owners;
    var es := before + [e];
    assert es[..|es| - 1] == before && es[|es| - 1] == e && e in es;
    var n := NamingAfter(before);
    if e.Reveal? {
      if e.ct in n.names {
        SourcedStill(before, e, n.names[e.ct], e.ct);
      } else {
        assert NamingAfter(es).minted == n.minted + 1;
      }
    }
  }

  lemma OwnerAdded(before: seq<Event>, e: Event)
    requires OneOwner(before) && StemsApart(before + [e])
    ensures OneOwner(before + [e])
  {
    hide NameOf, StemsApart, Sourced;
    var es := before + [e];
    assert es[..|es| - 1] == before && es[|es| - 1] == e;
    forall p | p in Owners(before) ensures Sourced(es, p.0, p.1) { SourcedStill(before, e, p.0, p.1); }
    if e.IsOutput() {
      var new_ := (NameOf(NamingAfter(before), e), e.ct);
      NewSource(before, e);
      forall p | p in Owners(before) && p.0 == new_.0 ensures p.1 == new_.1 { NewOwner(before, e, p); }
      assert Owners(es) == Owners(before) + [new_] && new_ in Owners(es);
      assert NamingAfter(es).names == NamingAfter(before).names[e.ct := new_.0];
    } else {
      assert Owners(es) == Owners(before) && NamingAfter(es) == NamingAfter(before);
    }
  }

  lemma {:induction false} StemsApartOneOwner(es: seq<Event>)
    requires StemsApart(es)
    ensures OneOwner(es)
  {
    hide Stem, OutputName, Owners, NamingAfter, OneOwner;
    if |es| == 0 {
      assert OneOwner([]) by { EmptyOneOwner(); }
    } else {
      var before, e := es[..|es| - 1], es[|es| - 1];
      assert es == before + [e];
      assert forall f :: f in before ==> f in es;
      StemsApartOneOwner(before);
      OwnerAdded(before, e);
    }
  }

  lemma EmptyOneOwner()
    ensures OneOwner([])
  {}

  /** Each output is an event of its own ciphertext and value. */
  lemma {:induction false} OutputOwned(es: seq<Event>, i: nat)
    requires i < |Outputs(es)|
    ensures |Owners(es)| == |Outputs(es)| && Owners(es)[i].0 == Outputs(es)[i].0
    ensures exists e :: e in es && e.IsOutput() && e.ct == Owners(es)[i].1 && e.value == Outputs(es)[i].1
  {
    hide NameOf, NamingAfter;
    var before, e := es[..|es| - 1], es[|es| - 1];
    assert e in es && forall f :: f in before ==> f in es;
    if i < |Outputs(before)| {
      OutputOwned(before, i);
    } else {
      OwnersCount(before);
    }
  }

  lemma {:induction false} OwnersCount(es: seq<Event>)
    ensures |Owners(es)| == |Outputs(es)|
  {
    hide NameOf, NamingAfter;
    if |es| > 0 {
      OwnersCount(es[..|es| - 1]);
    }
  }

  /** Distinct stems and identities: the replay shows what was recorded. */
  lemma ApartIsEnough(es: seq<Event>, contents: map<Id, Value>)
    requires HostPaths(es) && Unreused(es) && StemsApart(es)
    ensures var r := RecordRun(es); ReplayRun(es, Recorded(r.state.world.calls), contents).shown == r.shown
  {
    hide RecordRun, ReplayRun, Recorded, Outputs, StemsApart, Sourced, Owners, NamingAfter, HostPath;
    StemsApartOneOwner(es);
    forall p, q | p in Outputs(es) && q in Outputs(es) && p.0 == q.0 ensures p.1 == q.1 {
      var i :| 0 <= i < |Outputs(es)| && Outputs(es)[i] == p;
      var j :| 0 <= j < |Outputs(es)| && Outputs(es)[j] == q;
      OutputOwned(es, i);
      OutputOwned(es, j);
      assert Owners(es)[i] in Owners(es) && Owners(es)[j] in Owners(es);
    }
    ReplayShowsTheRecording(es, contents);
  }

  /** A file called like a made-up name: the first decrypt's result is lost. */
  lemma MadeUpNameTaken(v: Value, w: Value, contents: map<Id, Value>)
    requires v != w
    ensures var es := [Reveal(0, v), Save("output_0", 1, w)];
      var r := RecordRun(es); ReplayRun(es, Recorded(r.state.world.calls), contents).shown != r.shown
  {
    hide RecordRun, ReplayRun, Recorded;
    var e, f := Reveal(0, v), Save("output_0", 1, w);
    var es := [e, f];
    assert es[..1] == [e] && [e][..0] == [];
    assert OutputName(0) == "output_0" && Stem("output_0") == "output_0" by { PlainStem(); }
    assert Outputs([e]) == [("output_0", v)];
    assert Outputs(es) == [("output_0", v), ("output_0", w)];
    assert ("output_0", v) in Outputs(es) && ("output_0", w) in Outputs(es);
    assert HostPaths(es) by { PlainPath(); }
    ReplayShowsTheRecording(es, contents);
  }

  /** A name with neither directories nor extension is its own stem. */
  lemma OwnStem(name: string)
    requires '/' !in name && '.' !in name
    ensures Stem(name) == name
  {
    hide BeforeLast;
  }

  lemma PlainStem()
    ensures Stem("output_0") == "output_0" && OutputName(0) == "output_0"
  {
    hide Stem;
    assert Symbolic.Decimal(0) == "0";
    OwnStem("output_0");
  }

  lemma {:induction false} NoShortProbe(s: string)
    requires |s| < |PROBE_DIRECTORY|
    ensures !IsProbeFile(s)
  {
    if |s| > 0 { NoShortProbe(s[1..]); }
  }

  lemma PlainPath()
    ensures !IsProbeFile("output_0")
  {
    NoShortProbe("output_0");
  }

  // ----- hooks the facade's own work triggers -----

  /** A run of hooks: the host's, and others nested in them. */
  datatype Item = HostStep(e: Event) | Inside(nested: Nested) | Redecrypt(ct: Id)

  function Hooked(s: State, results: map<string, Value>, item: Item, live: bool): Outcome {
    match item
    case HostStep(e) => Step(s, results, e, live)
    case Inside(ProbeWrite(path, ct)) => Outcome(Serialized(s, results, path, ct).0, [])
    case Inside(ProbeRead(path)) => Outcome(Deserialized(s, path, true), [])
    case Inside(Reencode) => Outcome(Encoded(s, true), [])
    case Redecrypt(ct) => Outcome(Decrypted(s, results, ct).0, [])
  }

  /** What the library and the instrumented decrypt re-enter: probe files, and a
      ciphertext that was probed or substituted. */
  predicate Allowed(s: State, item: Item, live: bool) {
    match item
    case HostStep(_) => true
    case Inside(n) => MayNest(n, s.facadeIo, s.encoding)
    case Redecrypt(ct) => if live then ct in s.probed else ct in s.substituted
  }

  function MixedRun(s: State, results: map<string, Value>, items: seq<Item>, live: bool): Outcome {
    if |items| == 0 then Outcome(s, [])
    else
      var before := MixedRun(s, results, items[..|items| - 1], live);
      var o := Hooked(before.state, results, items[|items| - 1], live);
      Outcome(o.state, before.shown + o.shown)
  }

  predicate AllAllowed(s: State, results: map<string, Value>, items: seq<Item>, live: bool) {
    |items| == 0 ||
    (&& AllAllowed(s, results, items[..|items| - 1], live)
     && Allowed(MixedRun(s, results, items[..|items| - 1], live).state, items[|items| - 1], live))
  }

  function HostEvents(items: seq<Item>): seq<Event> {
    if |items| == 0 then []
    else
      var last := items[|items| - 1];
      HostEvents(items[..|items| - 1]) + (if last.HostStep? then [last.e] else [])
  }

  lemma RedecryptIsQuiet(s: State, n: Naming, results: map<string, Value>, ct: Id, live: bool)
    requires Keeps(s, n, results, live) && Allowed(s, Redecrypt(ct), live)
    ensures Decrypted(s, results, ct) == (s, ct)
  {
    hide OutputName, InOrder, NamesAgree;
    assert ct in s.probed && NameTaken(s, ct) == s;
    if !live {
      assert s.substituted != {} && Replayed(s) == s;
      assert ResultTaken(s, results, ct, s.probed[ct]) == (s, ct);
    }
  }

  lemma InsideIsQuiet(s: State, n: Naming, results: map<string, Value>, item: Item, live: bool)
    requires Keeps(s, n, results, live) && !item.HostStep? && Allowed(s, item, live)
    ensures Hooked(s, results, item, live) == Outcome(s, [])
  {
    hide IsProbeFile, Stem, OutputName, PlaintextName, InOrder, NamesAgree, Fresh;
    if item.Redecrypt? {
      RedecryptIsQuiet(s, n, results, item.ct, live);
    }
  }

  lemma HostsBefore(before: seq<Item>, last: Item)
    ensures var es, all := HostEvents(before), HostEvents(before + [last]);
      && (HostPaths(all) ==> HostPaths(es))
      && (forall p :: p in Outputs(es) ==> p in Outputs(all))
  {
    hide HostPath, NameOf, NamingAfter;
    var items := before + [last];
    assert items[..|items| - 1] == before;
    var es, all := HostEvents(before), HostEvents(items);
    if last.HostStep? {
      assert all == es + [last.e] && all[..|all| - 1] == es && all[|all| - 1] == last.e;
      assert Outputs(all)[..|Outputs(es)|] == Outputs(es);
      assert forall e :: e in es ==> e in all;
    } else {
      assert all == es;
    }
  }

  /** A recording's or a replay's state is as if the host's own hooks were the only ones. */
  lemma {:induction false} NestedHooksChangeNothing(items: seq<Item>, results: map<string, Value>,
          contents: map<Id, Value>, live: bool)
    requires HostPaths(HostEvents(items)) && (live ==> results == map[] && contents == map[])
    requires !live ==> AllRecorded(results, Outputs(HostEvents(items)))
    requires AllAllowed(Started(!live, contents), results, items, live)
    ensures MixedRun(Started(!live, contents), results, items, live)
         == Run(Started(!live, contents), results, HostEvents(items), live)
  {
    hide Started, Keeps, Traces, HostPath, Step, ProbesAgree, Allowed, Serialized, Decrypted, Deserialized, Encoded;
    hide NameOf, NamingAfter;
    if |items| > 0 {
      var before, last := items[..|items| - 1], items[|items| - 1];
      var es, all := HostEvents(before), HostEvents(items);
      HostsBefore(before, last);
      assert items == before + [last];
      NestedHooksChangeNothing(before, results, contents, live);
      if last.HostStep? {
        assert all[..|all| - 1] == es && all[|all| - 1] == last.e;
        assert Hooked(MixedRun(Started(!live, contents), results, before, live).state, results, last, live)
            == Step(MixedRun(Started(!live, contents), results, before, live).state, results, last.e, live);
      } else {
        assert all == es;
        if live { RecordAfter(es); } else { ReplayAfter(es, results, contents); }
        InsideIsQuiet(Run(Started(!live, contents), results, es, live).state, NamingAfter(es), results, last, live);
      }
    }
  }
}
