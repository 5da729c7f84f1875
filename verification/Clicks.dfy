/** What resolutions leave behind, over runs of service calls, visits and
    previews. */
module Clicks {
  import opened Common
  import opened Tables
  import opened Services
  import opened Namespace
  import opened Throttle
  import opened Resolver
  import opened Interleaving
  import opened Authority
  import Reserved

  datatype Step = Serve(call: Call) | Visit(req: Request) | Peek(req: Request)

  ghost function After(c: Config, gc: GuardConfig, w: World, s: Step): World {
    match s
    case Serve(call) => w.(db := Perform(w.db, PlanOf(c, w.db, call)).0)
    case Visit(req) => Resolve(c, gc, w, req).0
    case Peek(req) => PreviewLink(c, gc, w, req).0
  }

  ghost function RunSteps(c: Config, gc: GuardConfig, w: World, steps: seq<Step>): World
    decreases |steps|
  {
    if steps == [] then w else RunSteps(c, gc, After(c, gc, w, steps[0]), steps[1..])
  }

  ghost predicate GenuineSteps(steps: seq<Step>) {
    forall i :: 0 <= i < |steps| && steps[i].Serve? ==> Genuine(steps[i].call)
  }

  // ------------------------------------------------------------------ tallies

  /** How often a link was resolved, and how often the counter write and the
      click write of such a resolution succeeded. */
  datatype Tally = Tally(resolved: nat, visits: nat, clicks: nat)

  function Plus(a: Tally, b: Tally): Tally {
    Tally(a.resolved + b.resolved, a.visits + b.visits, a.clicks + b.clicks)
  }

  const NOTHING := Tally(0, 0, 0)

  ghost function TallyOf(c: Config, gc: GuardConfig, w: World, s: Step, link: int): Tally {
    if s.Visit? && Resolve(c, gc, w, s.req).1.Ok? && Resolve(c, gc, w, s.req).1.value.linkId == link
    then Tally(1, if s.req.visitFails then 0 else 1, if s.req.clickFails then 0 else 1)
    else NOTHING
  }

  ghost function TallyRun(c: Config, gc: GuardConfig, w: World, steps: seq<Step>, link: int): Tally
    decreases |steps|
  {
    if steps == [] then NOTHING
    else Plus(TallyOf(c, gc, w, steps[0], link), TallyRun(c, gc, After(c, gc, w, steps[0]), steps[1..], link))
  }

  function VisitsOf(links: map<int, Link>, link: int): nat {
    if link in links then links[link].visits else 0
  }

  function ClicksOf(clicks: seq<Click>, link: int): nat {
    if clicks == [] then 0
    else ClicksOf(clicks[..|clicks| - 1], link) + (if clicks[|clicks| - 1].linkId == link then 1 else 0)
  }

  /** Every click belongs to an existing link of its org; a PREFIX click's prefix
      row, while it exists, belongs to that org too. */
  ghost predicate ClickSound(db: Db, k: Click) {
    && k.linkId in db.links && db.links[k.linkId].orgId == k.orgId
    && (k.entryPoint == PrefixEntry ==> k.prefixId < db.nextPrefix)
    && (k.entryPoint == PrefixEntry && k.prefixId in db.prefixes ==> db.prefixes[k.prefixId].orgId == k.orgId)
  }

  ghost predicate ClicksSound(db: Db) {
    forall i :: 0 <= i < |db.clicks| ==> ClickSound(db, db.clicks[i])
  }

  // ---------------------------------------------------------------- statements

  lemma StmtKeepsVisits(links: map<int, Link>, next: int, s: Stmt, link: int)
    requires LinkKeys(links, next) && !s.RecordVisit?
    ensures VisitsOf(ExecLink(links, next, s).0, link) == VisitsOf(links, link)
  {
  }

  lemma StmtKeepsClick(db: Db, s: Stmt, k: Click)
    requires Keys(db) && ClickSound(db, k)
    ensures ClickSound(Exec(db, s).0, k)
  {
    if OfPrefixes(s) && k.entryPoint == PrefixEntry {
      if k.prefixId in db.prefixes {
        StmtLife(db.prefixes, db.nextPrefix, s, k.prefixId);
      } else if k.prefixId in Exec(db, s).0.prefixes {
        StmtBirth(db.prefixes, db.nextPrefix, s, k.prefixId);
      }
    }
  }

  lemma StmtKeepsClicks(db: Db, s: Stmt)
    requires Keys(db) && ClicksSound(db) && !s.InsertClick?
    ensures Exec(db, s).0.clicks == db.clicks && ClicksSound(Exec(db, s).0)
  {
    forall i | 0 <= i < |db.clicks| ensures ClickSound(Exec(db, s).0, db.clicks[i]) {
      StmtKeepsClick(db, s, db.clicks[i]);
    }
  }

  // ---------------------------------------------------------------- resolutions

  /** Prefixes belong to orgs, whose ids are positive. */
  ghost predicate PrefixOrgs(db: Db) {
    forall id :: id in db.prefixes ==> db.prefixes[id].orgId >= 1
  }

  lemma NamedOrgs(c: Config, db: Db)
    requires Named(c, db)
    ensures PrefixOrgs(db)
  {
    forall id | id in db.prefixes ensures db.prefixes[id].orgId >= 1 {
      assert PrefixNamed(c, db.prefixes[id]);
    }
  }

  lemma PrefixScope(c: Config, db: Db, prefix: string, host: string)
    requires ScopeOf(c, db, prefix, host).Ok? && ScopeOf(c, db, prefix, host).value.entry == PrefixEntry
    ensures
      var scope := ScopeOf(c, db, prefix, host).value;
      scope.prefixId in db.prefixes && db.prefixes[scope.prefixId].status == Approved &&
      db.prefixes[scope.prefixId].orgId == scope.orgId
  {
  }

  /** A request that reaches a link through a prefix reaches a link of that
      prefix's org, and the prefix is approved. */
  lemma PrefixReachesOwn(c: Config, db: Db, req: Request)
    requires PrefixOrgs(db) && Reached(c, db, req).Ok? && Reached(c, db, req).value.scope.entry == PrefixEntry
    ensures
      var f := Reached(c, db, req).value;
      f.scope.prefixId in db.prefixes && db.prefixes[f.scope.prefixId].status == Approved &&
      db.prefixes[f.scope.prefixId].orgId == db.links[f.id].orgId
  {
    var f := Reached(c, db, req).value;
    PrefixScope(c, db, req.prefix, req.visitor.host);
  }

  lemma RecordClickOnly(db: Db, k: Click, link: int)
    requires Keys(db) && ClicksSound(db) && ClickSound(db, k)
    ensures
      var db' := Exec(db, InsertClick(k)).0;
      db'.links == db.links && ClicksOf(db'.clicks, link) ==
      ClicksOf(db.clicks, link) + (if link == k.linkId then 1 else 0) &&
      ClicksSound(db')
  {
    var db' := Exec(db, InsertClick(k)).0;
    forall i | 0 <= i < |db'.clicks| ensures ClickSound(db', db'.clicks[i]) {
      assert i < |db.clicks| ==> ClickSound(db, db.clicks[i]);
    }
  }

  lemma RecordedCounts(c: Config, db: Db, req: Request, f: Found, link: int)
    requires Inv(c, db) && ClicksSound(db) && f.id in db.links && ClickSound(db, ClickFor(c, db, req, f))
    ensures
      var db' := Recorded(c, db, req, f);
      Inv(c, db') && ClicksSound(db') &&
      VisitsOf(db'.links, link) == VisitsOf(db.links, link) + (if link == f.id && !req.visitFails then 1 else 0) &&
      ClicksOf(db'.clicks, link) == ClicksOf(db.clicks, link) + (if link == f.id && !req.clickFails then 1 else 0)
  {
    var k := ClickFor(c, db, req, f);
    var visit, click := RecordVisit(f.id, req.now), InsertClick(k);
    var db1 := if req.visitFails then db else Exec(db, visit).0;
    if !req.visitFails {
      ExecInv(c, db, visit);
      StmtKeepsClicks(db, visit);
      StmtKeepsClick(db, visit, k);
    }
    if !req.clickFails {
      ExecInv(c, db1, click);
      RecordClickOnly(db1, k, link);
    }
  }

  /** An answer that is not a redirect records nothing; neither does a preview. */
  lemma FailureRecordsNothing(c: Config, gc: GuardConfig, w: World, req: Request)
    ensures Resolve(c, gc, w, req).1.Err? ==> Resolve(c, gc, w, req).0.db == w.db
    ensures PreviewLink(c, gc, w, req).0.db == w.db
  {
  }

  ghost predicate Good(c: Config, db: Db) {
    Inv(c, db) && ClicksSound(db)
  }

  lemma ResolvedRecords(c: Config, gc: GuardConfig, w: World, req: Request)
    requires Resolve(c, gc, w, req).1.Ok?
    ensures Reached(c, w.db, req).Ok? && Reached(c, w.db, req).value.id in w.db.links
    ensures Resolve(c, gc, w, req).1.value.linkId == Reached(c, w.db, req).value.id
    ensures Resolve(c, gc, w, req).0.db == Recorded(c, w.db, req, Reached(c, w.db, req).value)
  {
  }

  lemma VisitCounts(c: Config, gc: GuardConfig, w: World, req: Request, link: int)
    requires Good(c, w.db)
    ensures
      var w' := Resolve(c, gc, w, req).0;
      var t := TallyOf(c, gc, w, Visit(req), link);
      Good(c, w'.db) &&
      VisitsOf(w'.db.links, link) == VisitsOf(w.db.links, link) + t.visits &&
      ClicksOf(w'.db.clicks, link) == ClicksOf(w.db.clicks, link) + t.clicks
  {
    if Resolve(c, gc, w, req).1.Ok? {
      ResolvedRecords(c, gc, w, req);
      var f := Reached(c, w.db, req).value;
      if f.scope.entry == PrefixEntry {
        NamedOrgs(c, w.db);
        PrefixReachesOwn(c, w.db, req);
      }
      RecordedCounts(c, w.db, req, f, link);
    }
  }

  lemma CallCounts(c: Config, db: Db, call: Call, link: int)
    requires Good(c, db) && Reserved.Nested(c.reserved) && Genuine(call)
    ensures
      var db' := Perform(db, PlanOf(c, db, call)).0;
      Good(c, db') && VisitsOf(db'.links, link) == VisitsOf(db.links, link) && db'.clicks == db.clicks
  {
    CallInv(c, db, call);
    if PlanOf(c, db, call).Write? {
      PlanSanctioned(c, db, call);
      var s := PlanOf(c, db, call).stmt;
      StmtKeepsVisits(db.links, db.nextLink, s, link);
      StmtKeepsClicks(db, s);
    }
  }

  /** Conservation over every run of service calls, visits and previews: a link's
      counter grows by exactly the resolutions whose counter write succeeded, its
      click rows by exactly those whose click write succeeded, and every click
      row stays sound. */
  lemma {:induction false} ClicksConserved(c: Config, gc: GuardConfig, w: World, steps: seq<Step>, link: int)
    requires Good(c, w.db) && Reserved.Nested(c.reserved) && GenuineSteps(steps)
    ensures
      var end := RunSteps(c, gc, w, steps).db;
      var t := TallyRun(c, gc, w, steps, link);
      Good(c, end) &&
      VisitsOf(end.links, link) == VisitsOf(w.db.links, link) + t.visits &&
      ClicksOf(end.clicks, link) == ClicksOf(w.db.clicks, link) + t.clicks
    decreases |steps|
  {
    if steps != [] {
      match steps[0] {
        case Serve(call) => CallCounts(c, w.db, call, link);
        case Visit(req) => VisitCounts(c, gc, w, req, link);
        case Peek(req) => FailureRecordsNothing(c, gc, w, req);
      }
      ClicksConserved(c, gc, After(c, gc, w, steps[0]), steps[1..], link);
    }
  }

  ghost predicate WritesSucceed(steps: seq<Step>) {
    forall i :: 0 <= i < |steps| && steps[i].Visit? ==> !steps[i].req.visitFails && !steps[i].req.clickFails
  }

  lemma {:induction false} AllWritesTally(c: Config, gc: GuardConfig, w: World, steps: seq<Step>, link: int)
    requires WritesSucceed(steps)
    ensures
      var t := TallyRun(c, gc, w, steps, link);
      t.visits == t.clicks == t.resolved
    decreases |steps|
  {
    if steps != [] { AllWritesTally(c, gc, After(c, gc, w, steps[0]), steps[1..], link); }
  }

  /** From an empty deployment, with no failing write: visits, click rows and
      successful resolutions of every link are the same number. */
  lemma VisitsAreClicks(c: Config, gc: GuardConfig, guard: Option<Guard>, steps: seq<Step>, link: int)
    requires Reserved.Nested(c.reserved) && GenuineSteps(steps) && WritesSucceed(steps)
    ensures
      var start := World(EMPTY, guard);
      var end := RunSteps(c, gc, start, steps).db;
      VisitsOf(end.links, link) == ClicksOf(end.clicks, link) == TallyRun(c, gc, start, steps, link).resolved &&
      ClicksSound(end)
  {
    ClicksConserved(c, gc, World(EMPTY, guard), steps, link);
    AllWritesTally(c, gc, World(EMPTY, guard), steps, link);
  }

}
