/** The program that is analyzed and the one that is emitted: the depths are the same, and
    the theorems about runs are about the emitted one. */
module DepthEmitted {
  import opened Analyzer
  import opened Depth
  import opened DepthRuns
  import opened DepthLows
  import opened DepthExact
  import opened DepthTame
  import opened DepthWays
  import opened DepthReports

  // ----- the analyzer sees no difference -----

  lemma {:induction false} SameScope(s: Stmt, noted: set<string>, scope: Scope)
    ensures After(Emitted(s, noted), scope) == After(s, scope)
    decreases s, 1
  {
    hide TypeOf, AfterAll, EmittedAll;
    if s.If? || s.Fixed? {
      SameScopes(s.then_, noted, scope);
      SameScopes(s.else_, noted, AfterAll(s.then_, scope));
    }
  }

  lemma {:induction false} SameScopes(ss: seq<Stmt>, noted: set<string>, scope: Scope)
    ensures AfterAll(EmittedAll(ss, noted), scope) == AfterAll(ss, scope)
    decreases ss, 0
  {
    hide After, Emitted;
    if |ss| > 0 {
      SameScope(ss[0], noted, scope);
      SameScopes(ss[1..], Noted(ss[0], noted), After(ss[0], scope));
      EmittedFirst(ss, noted);
    }
  }

  lemma EmittedFirst(ss: seq<Stmt>, noted: set<string>)
    requires |ss| > 0
    ensures var all := EmittedAll(ss, noted);
      |all| > 0 && all[0] == Emitted(ss[0], noted) && all[1..] == EmittedAll(ss[1..], Noted(ss[0], noted))
  {}

  lemma {:induction false} SameSites(s: Stmt, noted: set<string>, scope: Scope)
    ensures Sites(Emitted(s, noted), scope) == Sites(s, scope)
    decreases s, 1
  {
    hide AfterAll, AllSites, EmittedAll;
    if s.If? || s.Fixed? {
      SameScopes(s.then_, noted, scope);
      AllSameSites(s.then_, noted, scope);
      AllSameSites(s.else_, noted, AfterAll(s.then_, scope));
    } else if s.For? {
      AllSameSites(s.body, noted, Untyped(scope, NameSet(s.names)));
    }
  }

  /** What is checked, and in which scope, does not depend on what is emitted. */
  lemma {:induction false} AllSameSites(ss: seq<Stmt>, noted: set<string>, scope: Scope)
    ensures AllSites(EmittedAll(ss, noted), scope) == AllSites(ss, scope)
    decreases ss, 0
  {
    hide Sites, After, Emitted;
    if |ss| > 0 {
      SameSites(ss[0], noted, scope);
      SameScope(ss[0], noted, scope);
      AllSameSites(ss[1..], Noted(ss[0], noted), After(ss[0], scope));
      EmittedFirst(ss, noted);
    }
  }

  lemma SameDepths(ss: seq<Stmt>, noted: set<string>, scope: Scope)
    ensures BlockDepths(EmittedAll(ss, noted), scope) == BlockDepths(ss, scope)
  {
    hide BlockDepths, AllSites, EmittedAll;
    AllSitesGiveDepths(ss, scope);
    AllSitesGiveDepths(EmittedAll(ss, noted), scope);
    AllSameSites(ss, noted, scope);
  }

  // ----- assignments that lets become -----

  /** Every noted name has a variable: what is emitted as an assignment assigns one. */
  lemma NotedIsVisible(s: Stmt, noted: set<string>, low: Frames)
    requires |low| > 0 && noted <= Visible(low).Keys
    ensures Noted(s, noted) <= Visible(LowAfter(Emitted(s, noted), low)).Keys
    ensures s.Let? && Emitted(s, noted).form.Again? && !s.form.Again? ==> s.name in Visible(low)
  {
    hide LowAfter, NamesKept, Visible, Emitted;
    var t := Emitted(s, noted);
    LowNames(t, low);
    KeptVisible(low, LowAfter(t, low), Declares(t));
    DeclaredOrNoted(s, noted);
  }

  lemma DeclaredOrNoted(s: Stmt, noted: set<string>)
    ensures Noted(s, noted) <= noted + Declares(Emitted(s, noted))
    ensures s.Let? && Emitted(s, noted).form.Again? && !s.form.Again? ==> s.name in noted
  {}

  lemma {:induction false} SameVisible(a: Frames, b: Frames)
    requires SameNames(a, b)
    ensures Visible(a).Keys == Visible(b).Keys
    decreases |a|
  {
    if |a| > 0 {
      var n := |a| - 1;
      forall i | 0 <= i < n ensures a[..n][i].Keys == b[..n][i].Keys { assert a[i].Keys == b[i].Keys; }
      SameVisible(a[..n], b[..n]);
    }
  }

  lemma KeptVisible(a: Frames, b: Frames, more: set<string>)
    requires NamesKept(a, b, more)
    ensures Visible(b).Keys == Visible(a).Keys + more
  {
    SameVisible(a[..|a| - 1], b[..|b| - 1]);
  }

  // ----- the emitted program's runs -----

  /** The depths that the analyzer gives a program hold of every run of what is emitted for
      it exactly when they hold of the emitted program's least values, if some run has
      these; and always if they do. */
  lemma EmittedExactly(ss: seq<Stmt>, scope: Scope, low: Frames)
    requires |low| > 0
    ensures var code := EmittedAll(ss, {});
      && AllSites(code, scope) == AllSites(ss, scope)
      && (FineAll(code, scope, low) ==> EveryRunHolds(code, scope, low))
      && (DefiniteAll(code, low) ==> (FineAll(code, scope, low) <==> EveryRunHolds(code, scope, low)))
  {
    hide AllSites, EmittedAll, FineAll, EveryRunHolds, DefiniteAll;
    AllSameSites(ss, {}, scope);
    ExactlyWhenFine(EmittedAll(ss, {}), scope, low);
  }

  /** The same by ways, which are exact for every program. */
  lemma EmittedExactlyByWays(ss: seq<Stmt>, scope: Scope, low: Frames)
    requires |low| > 0
    ensures var code := EmittedAll(ss, {});
      && AllSites(code, scope) == AllSites(ss, scope)
      && (EveryWayFine(code, scope, low) ==> EveryRunHolds(code, scope, low))
      && (EveryWaySharp(code, low) ==> (EveryWayFine(code, scope, low) <==> EveryRunHolds(code, scope, low)))
  {
    hide AllSites, EmittedAll, EveryWayFine, EveryRunHolds, EveryWaySharp;
    AllSameSites(ss, {}, scope);
    ExactlyWhenEveryWay(EmittedAll(ss, {}), scope, low);
  }

  lemma EmittedNeverTooDeep(ss: seq<Stmt>, scope: Scope, frames: Frames, scripts: seq<Script>)
    requires |frames| > 0 && Below(scope, frames)
    requires TameAll(EmittedAll(ss, {}), scope, Held(scope, Visible(frames).Keys), LocalNames(frames))
    requires AllTypedVisits(VisitsAll(EmittedAll(ss, {}), scope, frames, scripts))
    ensures AllHold(VisitsAll(EmittedAll(ss, {}), scope, frames, scripts))
    ensures VisitsOnly(VisitsAll(EmittedAll(ss, {}), scope, frames, scripts), AllSites(ss, scope))
  {
    hide AllSites, EmittedAll, TameAll, Below, AllTypedVisits, VisitsAll, AllHold, VisitsOnly;
    TameNeverTooDeep(EmittedAll(ss, {}), scope, frames, scripts);
    AllVisitsAreSites(EmittedAll(ss, {}), scope, frames, scripts);
    AllSameSites(ss, {}, scope);
  }

  /** A depth that the analyzer reports of a program is over the limit in every run of the
      emitted one that comes to its place. */
  lemma EmittedReportsAreReal(ss: seq<Stmt>, scope: Scope, low: Frames, limit: nat, d: nat) returns (site: Site, j: nat)
    requires |low| > 0 && FineAll(EmittedAll(ss, {}), scope, low) && d in Over(limit, BlockDepths(ss, scope))
    ensures site in AllSites(ss, scope)
    ensures j < |DepthsIn(site.e, site.scope)| && DepthsIn(site.e, site.scope)[j] == d > limit
    ensures RealAt(site, j, limit, EmittedAll(ss, {}), scope, low)
  {
    hide AllSites, EmittedAll, FineAll, Over, BlockDepths, DepthsIn, RealAt;
    SameDepths(ss, {}, scope);
    AllSameSites(ss, {}, scope);
    site, j := ReportsAreReal(EmittedAll(ss, {}), scope, low, limit, d);
  }

  /** And what a run of the emitted program finds over the limit is reported. */
  lemma EmittedExcessIsReported(ss: seq<Stmt>, scope: Scope, frames: Frames, scripts: seq<Script>, limit: nat, v: Visit,
          d: nat)
    requires v in VisitsAll(EmittedAll(ss, {}), scope, frames, scripts) && d in DepthsIn(v.e, v.scope) && d > limit
    ensures d in Over(limit, BlockDepths(ss, scope))
  {
    hide EmittedAll, VisitsAll, Over, BlockDepths, DepthsIn;
    SameDepths(ss, {}, scope);
    ExcessIsReported(EmittedAll(ss, {}), scope, frames, scripts, limit, v, d);
  }
}
