/** The analyzer's reports and the runs: every depth it reports belongs to an operation at a
    place it checked, and every run that comes to that place has a chain over the limit. */
module DepthReports {
  import opened Analyzer
  import opened Depth
  import opened DepthLows
  import opened DepthRuns

  /** An expression and the scope it is checked in. */
  datatype Site = Site(e: Expr, scope: Scope)

  function Sites(s: Stmt, scope: Scope): seq<Site>
    decreases s, 1
  {
    match s
    case Let(_, e, _) => [Site(e, scope)]
    case LetTuple(_, e) => [Site(e, scope)]
    case Assign(target, e) => [Site(target, scope), Site(e, scope)]
    case Evaluate(e) => [Site(e, scope)]
    case If(c, a, b) => [Site(c, scope)] + AllSites(a, scope) + AllSites(b, AfterAll(a, scope))
    case Fixed(c, _, a, b) => [Site(c, scope)] + AllSites(a, scope) + AllSites(b, AfterAll(a, scope))
    case For(names, iterable, body) => [Site(iterable, scope)] + AllSites(body, Untyped(scope, NameSet(names)))
  }

  function AllSites(ss: seq<Stmt>, scope: Scope): seq<Site>
    decreases ss, 0
  {
    if |ss| == 0 then [] else Sites(ss[0], scope) + AllSites(ss[1..], After(ss[0], scope))
  }

  function DepthsAt(sites: seq<Site>): seq<nat> {
    if |sites| == 0 then [] else DepthsIn(sites[0].e, sites[0].scope) + DepthsAt(sites[1..])
  }

  lemma {:induction false} DepthsAppend(a: seq<Site>, b: seq<Site>)
    ensures DepthsAt(a + b) == DepthsAt(a) + DepthsAt(b)
  {
    hide DepthsIn;
    if |a| == 0 {
      assert a + b == b;
    } else {
      DepthsAppend(a[1..], b);
      assert (a + b)[1..] == a[1..] + b;
    }
  }

  lemma OneSite(e: Expr, scope: Scope)
    ensures DepthsAt([Site(e, scope)]) == DepthsIn(e, scope)
  {
    hide DepthsIn;
    assert [Site(e, scope)][1..] == [];
  }

  lemma BranchDepths(c: Expr, a: seq<Stmt>, b: seq<Stmt>, scope: Scope)
    ensures DepthsAt([Site(c, scope)] + AllSites(a, scope) + AllSites(b, AfterAll(a, scope)))
         == DepthsIn(c, scope) + DepthsAt(AllSites(a, scope)) + DepthsAt(AllSites(b, AfterAll(a, scope)))
  {
    hide DepthsIn, AllSites, AfterAll, DepthsAt;
    OneSite(c, scope);
    DepthsAppend([Site(c, scope)], AllSites(a, scope));
    DepthsAppend([Site(c, scope)] + AllSites(a, scope), AllSites(b, AfterAll(a, scope)));
  }

  /** The depths a block reports are those of the places it checks, in order. */
  lemma {:induction false} SitesGiveDepths(s: Stmt, scope: Scope)
    ensures StmtDepths(s, scope) == DepthsAt(Sites(s, scope))
    decreases s, 1
  {
    hide DepthsIn, BlockDepths, AllSites, AfterAll, DepthsAt;
    match s
    case Let(_, e, _) => OneSite(e, scope);
    case LetTuple(_, e) => OneSite(e, scope);
    case Assign(target, e) =>
      assert Sites(s, scope) == [Site(target, scope)] + [Site(e, scope)];
      OneSite(target, scope);
      OneSite(e, scope);
      DepthsAppend([Site(target, scope)], [Site(e, scope)]);
    case Evaluate(e) => OneSite(e, scope);
    case If(c, a, b) =>
      AllSitesGiveDepths(a, scope);
      AllSitesGiveDepths(b, AfterAll(a, scope));
      BranchDepths(c, a, b, scope);
    case Fixed(c, _, a, b) =>
      AllSitesGiveDepths(a, scope);
      AllSitesGiveDepths(b, AfterAll(a, scope));
      BranchDepths(c, a, b, scope);
    case For(names, iterable, body) =>
      OneSite(iterable, scope);
      AllSitesGiveDepths(body, Untyped(scope, NameSet(names)));
      DepthsAppend([Site(iterable, scope)], AllSites(body, Untyped(scope, NameSet(names))));
  }

  lemma {:induction false} AllSitesGiveDepths(ss: seq<Stmt>, scope: Scope)
    ensures BlockDepths(ss, scope) == DepthsAt(AllSites(ss, scope))
    decreases ss, 0
  {
    hide StmtDepths, Sites, After, DepthsIn;
    if |ss| > 0 {
      SitesGiveDepths(ss[0], scope);
      AllSitesGiveDepths(ss[1..], After(ss[0], scope));
      DepthsAppend(Sites(ss[0], scope), AllSites(ss[1..], After(ss[0], scope)));
    }
  }

  ghost predicate VisitsOnly(vs: seq<Visit>, sites: seq<Site>) {
    forall v :: v in vs ==> Site(v.e, v.scope) in sites
  }

  /** A run evaluates only what was checked, in the scope it was checked in. */
  lemma {:induction false} VisitsAreSites(s: Stmt, scope: Scope, frames: Frames, script: Script)
    ensures VisitsOnly(Visits(s, scope, frames, script), Sites(s, scope))
    decreases s, 1, 0
  {
    hide AllSites, VisitsAll, VisitsRounds, AfterAll;
    match s
    case If(_, a, b) =>
      if script.taken {
        AllVisitsAreSites(a, scope, frames + [map[]], script.branch);
      } else {
        AllVisitsAreSites(b, AfterAll(a, scope), frames + [map[]], script.branch);
      }
    case Fixed(_, _, _, _) => AllVisitsAreSites(Live(s), LiveScope(s, scope), frames, script.branch);
    case For(names, _, body) => RoundsAreSites(names, body, Untyped(scope, NameSet(names)), frames, script.rounds);
    case _ =>
  }

  lemma {:induction false} AllVisitsAreSites(ss: seq<Stmt>, scope: Scope, frames: Frames, scripts: seq<Script>)
    ensures VisitsOnly(VisitsAll(ss, scope, frames, scripts), AllSites(ss, scope))
    decreases ss, 0, 0
  {
    hide Sites, Visits, After, Then, Finishes;
    if |ss| > 0 && |scripts| > 0 {
      VisitsAreSites(ss[0], scope, frames, scripts[0]);
      AllVisitsAreSites(ss[1..], After(ss[0], scope), Then(ss[0], frames, scripts[0]), scripts[1..]);
    }
  }

  lemma {:induction false} RoundsAreSites(names: seq<string>, body: seq<Stmt>, scope: Scope, frames: Frames,
          rounds: seq<Round>)
    ensures VisitsOnly(VisitsRounds(names, body, scope, frames, rounds), AllSites(body, scope))
    decreases body, 1, |rounds|
  {
    hide AllSites, VisitsAll, ThenAll, FinishesAll, Popped;
    if |rounds| > 0 {
      var inner := frames + [Items(NameSet(names), rounds[0].item)];
      AllVisitsAreSites(body, scope, inner, rounds[0].scripts);
      RoundsAreSites(names, body, scope, Popped(ThenAll(body, inner, rounds[0].scripts)), rounds[1..]);
    }
  }

  lemma {:induction false} InOver(limit: nat, depths: seq<nat>, d: nat)
    ensures d in Over(limit, depths) <==> d > limit && d in depths
    decreases |depths|
  {
    if |depths| > 0 {
      InOver(limit, depths[..|depths| - 1], d);
      assert depths == depths[..|depths| - 1] + [depths[|depths| - 1]];
    }
  }

  lemma {:induction false} WhichSite(sites: seq<Site>, d: nat) returns (site: Site, j: nat)
    requires d in DepthsAt(sites)
    ensures site in sites && j < |DepthsIn(site.e, site.scope)| && DepthsIn(site.e, site.scope)[j] == d
  {
    hide DepthsIn;
    site := sites[0];
    var here := DepthsIn(site.e, site.scope);
    if d in here {
      j :| 0 <= j < |here| && here[j] == d;
    } else {
      site, j := WhichSite(sites[1..], d);
    }
  }

  lemma {:induction false} SiteIn(sites: seq<Site>, site: Site, d: nat)
    requires site in sites && d in DepthsIn(site.e, site.scope)
    ensures d in DepthsAt(sites)
  {
    hide DepthsIn;
    if sites[0] != site { SiteIn(sites[1..], site, d); }
  }

  ghost predicate IsOverAt(v: Visit, j: nat, limit: nat) {
    j < |ChainsIn(v.e, v.scope, v.vals, v.outside)| && ChainsIn(v.e, v.scope, v.vals, v.outside)[j] > limit
  }

  /** Wherever a run comes to the site, its j-th operation's chain is over the limit. */
  ghost predicate RealAt(site: Site, j: nat, limit: nat, ss: seq<Stmt>, scope: Scope, low: Frames) {
    forall frames: Frames, scripts: seq<Script>, v: Visit {:trigger v in VisitsAll(ss, scope, frames, scripts)} ::
      (&& Beneath(low, frames) && AllTypedVisits(VisitsAll(ss, scope, frames, scripts))
       && v in VisitsAll(ss, scope, frames, scripts) && v.e == site.e && v.scope == site.scope) ==>
        IsOverAt(v, j, limit)
  }

  /** Every depth the analyzer reports is that of an operation at a place it checked, and
      wherever a run comes to that place, the operation's chain is over the limit. */
  lemma ReportsAreReal(ss: seq<Stmt>, scope: Scope, low: Frames, limit: nat, d: nat) returns (site: Site, j: nat)
    requires |low| > 0 && FineAll(ss, scope, low) && d in Over(limit, BlockDepths(ss, scope))
    ensures site in AllSites(ss, scope)
    ensures j < |DepthsIn(site.e, site.scope)| && DepthsIn(site.e, site.scope)[j] == d > limit
    ensures RealAt(site, j, limit, ss, scope, low)
  {
    hide Over, BlockDepths, AllSites, DepthsAt, DepthsIn, ChainsIn, FineAll, Beneath, AllTypedVisits, VisitsAll, Fits;
    hide TypeOf, ValOf;
    InOver(limit, BlockDepths(ss, scope), d);
    AllSitesGiveDepths(ss, scope);
    site, j := WhichSite(AllSites(ss, scope), d);
    forall frames: Frames, scripts: seq<Script>, v: Visit |
      Beneath(low, frames) && AllTypedVisits(VisitsAll(ss, scope, frames, scripts)) &&
      v in VisitsAll(ss, scope, frames, scripts) && v.e == site.e && v.scope == site.scope
      ensures IsOverAt(v, j, limit)
    {
      AllNeverTooDeep(ss, scope, low, frames, scripts);
      VisitHolds(VisitsAll(ss, scope, frames, scripts), v);
    }
  }

  lemma VisitHolds(vs: seq<Visit>, v: Visit)
    requires AllHold(vs) && v in vs
    ensures v.Holds()
  {}

  /** The other way: what a run comes to and finds over the limit is reported. */
  lemma ExcessIsReported(ss: seq<Stmt>, scope: Scope, frames: Frames, scripts: seq<Script>, limit: nat, v: Visit,
          d: nat)
    requires v in VisitsAll(ss, scope, frames, scripts) && d in DepthsIn(v.e, v.scope) && d > limit
    ensures d in Over(limit, BlockDepths(ss, scope))
  {
    hide Over, BlockDepths, AllSites, DepthsAt, DepthsIn, VisitsAll;
    AllVisitsAreSites(ss, scope, frames, scripts);
    SiteIn(AllSites(ss, scope), Site(v.e, v.scope), d);
    AllSitesGiveDepths(ss, scope);
    InOver(limit, BlockDepths(ss, scope), d);
  }
}
