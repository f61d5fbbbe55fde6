/** What each mode may do. Without a configuration the facade never changes what a host
    sees: dormant it makes no call at all, and in cooperative mode it only tags. Before the
    context is loaded no hook does anything. */
module FacadeModes {
  import opened Facade
  import opened FacadeRuns

  function StartedAs(configured: bool, cooperative: bool, cached: bool, contents: map<Id, Value>): State {
    var s := ContextLoaded(Idle(), configured, cooperative, cached);
    s.(world := s.world.(elements := contents))
  }

  /** A run of the host as it is, in whatever mode. */
  function HostRun(es: seq<Event>, configured: bool, cooperative: bool, cached: bool): Outcome {
    Run(StartedAs(configured, cooperative, cached, map[]), map[], es, true)
  }

  /** What the host itself computed for each output, in order. */
  function OwnValues(es: seq<Event>): seq<Value> {
    if |es| == 0 then []
    else OwnValues(es[..|es| - 1]) + (if es[|es| - 1].IsOutput() then [es[|es| - 1].value] else [])
  }

  /** The host records exactly when there is a configuration without a valid recording, and
      replays exactly when there is one; the library is started for a recording only. */
  lemma ModeDecided(configured: bool, cooperative: bool, cached: bool, contents: map<Id, Value>)
    ensures var s := StartedAs(configured, cooperative, cached, contents);
      && (s.setup.recording <==> configured && !cached) && (s.setup.replaying <==> configured && cached)
      && (s.setup.mode == Dormant <==> !configured && !cooperative)
      && (s.setup.mode == Cooperative <==> !configured && cooperative)
      && s.world.calls == (if configured && !cached then [Start] else [])
  {}

  /** A second load of a context settles nothing anew. */
  lemma ModeStays(s: State, configured: bool, cooperative: bool, cached: bool, again: (bool, bool, bool))
    requires s == ContextLoaded(Idle(), configured, cooperative, cached)
    ensures ContextLoaded(s, again.0, again.1, again.2) == s
  {}

  lemma NothingBeforeTheContext(s: State, results: map<string, Value>, path: string, present: bool, ct: Id)
    requires !s.setup.initialized
    ensures Deserialized(s, path, present) == s && Encoded(s, present) == s
    ensures Serialized(s, results, path, ct) == (s, false) && Decrypted(s, results, ct) == (s, ct)
  {}

  // ----- without a configuration -----

  /** The calls that only say what something is. */
  predicate Tags(c: Call) {
    c.TagKeys? || c.TagInput? || c.TagPlaintext?
  }

  predicate Transparent(s: State, cooperative: bool) {
    && s.setup.mode == (if cooperative then Cooperative else Dormant)
    && !s.setup.recording && !s.setup.replaying && s.setup.initialized
    && (if cooperative then forall c :: c in s.world.calls ==> Tags(c) else s.world.calls == [])
  }

  lemma TransparentStep(s: State, e: Event, cooperative: bool)
    requires Transparent(s, cooperative)
    ensures var o := Step(s, map[], e, true);
      && Transparent(o.state, cooperative) && o.shown == (if e.IsOutput() then [e.value] else [])
  {
    hide IsProbeFile, Stem, UniqueName, InputName, PlaintextName, OutputName;
  }

  /** Without a configuration a host sees its own values, whatever it does; dormant, the
      facade makes no call, and in cooperative mode it tags and does nothing else. */
  lemma {:induction false} Unchanged(es: seq<Event>, cooperative: bool, cached: bool)
    ensures var o := HostRun(es, false, cooperative, cached);
      && o.shown == OwnValues(es) && Transparent(o.state, cooperative)
  {
    hide Step;
    if |es| > 0 {
      var before, e := es[..|es| - 1], es[|es| - 1];
      Unchanged(before, cooperative, cached);
      TransparentStep(HostRun(before, false, cooperative, cached).state, e, cooperative);
    }
  }

  /** Recording changes nothing of what the host sees either. */
  lemma {:induction false} OwnOutputs(es: seq<Event>)
    ensures OwnValues(es) == ValuesOf(Outputs(es))
  {
    hide NameOf, NamingAfter;
    if |es| > 0 {
      var before, e := es[..|es| - 1], es[|es| - 1];
      OwnOutputs(before);
      if e.IsOutput() { assert Outputs(es)[..|Outputs(es)| - 1] == Outputs(before); }
    }
  }

  lemma RecordingShowsTheHost(es: seq<Event>, contents: map<Id, Value>)
    requires HostPaths(es)
    ensures RecordRun(es).shown == OwnValues(es)
    ensures var results := Recorded(RecordRun(es).state.world.calls);
      ReplayRun(es, results, contents).shown == OwnValues(es) <==> OneValuePerName(Outputs(es))
  {
    RecordAfter(es);
    OwnOutputs(es);
    ReplayShowsTheRecording(es, contents);
    hide *;
  }
}
