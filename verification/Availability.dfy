/** When a found link is served, where its visitor goes, what is recorded, and what
    the re-scan's verdict means to later visitors. */
module Availability {
  import opened Common
  import opened Tables
  import opened Reserved
  import opened Hosts
  import opened Services
  import opened Throttle
  import opened Resolver
  import Namespace
  import Authority
  import Clicks
  import Rescan

  // ----------------------------------------------------------------- serving

  /** The request is let in and reaches the link of the given id. */
  ghost predicate Reaches(c: Config, w: World, req: Request, id: int) {
    (w.guard.Some? ==> !BlockedStep(w.guard.value, req.visitor.ip, req.askedAt).1) &&
    Reached(c, w.db, req).Ok? && Reached(c, w.db, req).value.id == id
  }

  predicate Started(link: Link, now: int) {
    link.config.activatesAt.None? || link.config.activatesAt.value <= now
  }

  predicate Expired(link: Link, now: int) {
    link.config.expiresAt.Some? && link.config.expiresAt.value <= now
  }

  /** A reached link is served if and only if it is active, its start has come and
      its end has not; else the visitor learns what is wrong, and nothing changes. */
  lemma ServedIffOpen(c: Config, gc: GuardConfig, w: World, req: Request, id: int)
    requires Reaches(c, w, req, id)
    ensures id in w.db.links
    ensures
      var link := w.db.links[id];
      var (w', r) := Resolve(c, gc, w, req);
      (r.Ok? <==> link.status == Active && Started(link, req.now) && !Expired(link, req.now)) &&
      (link.status == DisabledAbuse ==> r == Err(Gone)) &&
      (link.status == Active && !Started(link, req.now) ==> r == Err(NotFound)) &&
      (link.status == Active && Started(link, req.now) && Expired(link, req.now) ==> r == Err(Gone)) &&
      (r.Err? ==> w'.db == w.db)
  {
  }

  /** A preview shows a reached link whatever its schedule, and says whether it is
      disabled. */
  lemma PreviewShows(c: Config, gc: GuardConfig, w: World, req: Request, id: int)
    requires Reaches(c, w, req, id)
    ensures
      var link := w.db.links[id];
      PreviewLink(c, gc, w, req).1 == Ok(Preview(link.code, link.config.destination, link.status != Active))
  {
  }

  // ------------------------------------------------------------- the target

  /** What the visitor's platform has as a deep link. */
  predicate HasDeeplink(link: Link, os: string) {
    link.config.deeplink.Some? &&
    ((os == "Android" && link.config.deeplink.value.android.Some?) ||
     (os == "iOS" && link.config.deeplink.value.ios.Some?))
  }

  ghost predicate FirstMatch(rules: seq<Rule>, os: string, city: string, i: int) {
    0 <= i < |rules| && RuleMatches(rules[i], os, city) && forall j :: 0 <= j < i ==> !RuleMatches(rules[j], os, city)
  }

  /** Where a served visitor goes: the first matching rule wins over the platform's
      deep link, which wins over the destination, and an iOS deep link is the stored
      URL. The destination is tagged only when the link has no tags of its own. */
  lemma TargetOrder(c: Config, link: Link, req: Request)
    ensures
      var out := OutgoingFor(c, link, req);
      var (os, city) := (req.visitor.mobileOS, c.cityOf(req.visitor.ip));
      (forall i :: !req.rulesFail && FirstMatch(link.config.rules, os, city, i) ==>
         out.targetMatched && out.url == link.config.rules[i].url) &&
      (out.targetMatched <==> !req.rulesFail && exists r :: r in link.config.rules && RuleMatches(r, os, city)) &&
      (out.isDeeplink <==> HasDeeplink(link, os)) &&
      (!out.targetMatched && out.isDeeplink && os == "iOS" ==> out.url == link.config.deeplink.value.ios.value) &&
      (!out.targetMatched && !out.isDeeplink ==>
         out.url == if link.config.utms == Utms("", "", "") then c.appendUtms(link.config.destination, out.utms)
                    else link.config.destination) &&
      (link.config.utms != Utms("", "", "") ==> out.utms == link.config.utms)
  {
    FirstMatchWins(link.config.rules, req.visitor.mobileOS, c.cityOf(req.visitor.ip));
  }

  /** The tags a link without own ones gets: the platform the referrer's host belongs to,
      or the host itself, or the deployment's name for a visitor without a referrer. */
  lemma TagsFromReferrer(c: Config, link: Link, req: Request)
    requires link.config.utms == Utms("", "", "")
    ensures
      var host, tags := req.visitor.referrerHost, OutgoingFor(c, link, req).utms;
      var twitter, google := host == "t.co" || Mentions(host, "twitter"), Mentions(host, "google");
      var facebook := Mentions(host, "facebook");
      (host == "" ==> tags.source == c.selfSource) &&
      (host != "" && twitter ==> tags.source == "twitter") &&
      (host != "" && !twitter && google ==> tags.source == "google") &&
      (host != "" && !twitter && !google && facebook ==> tags.source == "facebook") &&
      (host != "" && !twitter && !google && !facebook ==> tags.source == host) &&
      tags.medium == "referrer by " + req.visitor.deviceType && tags.campaign == ""
  {
    var host := req.visitor.referrerHost;
    ContainsIff(host, "twitter");
    ContainsIff(host, "google");
    ContainsIff(host, "facebook");
  }

  /** On Android the deep link is an intent URL that falls back to the stored page. */
  lemma AndroidIntent(c: Config, link: Link, req: Request)
    requires HasDeeplink(link, "Android") && req.visitor.mobileOS == "Android"
    requires !OutgoingFor(c, link, req).targetMatched
    ensures
      var app, url := link.config.deeplink.value.android.value, OutgoingFor(c, link, req).url;
      url == "intent:" + app.intent + "#Intent;package=" + app.package + ";scheme=" + app.scheme +
             ";S.browser_fallback_url=" + c.queryEscape(app.fallback) + ";end;"
  {
  }

  ghost predicate Includes(cond: Condition, value: string) {
    exists v :: v in cond.values && EqualFold(v, value)
  }

  /** Conditions: a value listed, up to case, or with NOT one that is not listed; a
      rule without a condition never matches, and one on a location never where the
      city is unknown, NOT or no NOT. */
  lemma RuleMeaning(r: Rule, os: string, city: string)
    ensures r.location.None? && r.deviceType.None? ==> !RuleMatches(r, os, city)
    ensures r.location.Some? && city == "" ==> !RuleMatches(r, os, city)
    ensures r.location.None? && r.deviceType.Some? ==>
      (RuleMatches(r, os, city) <==> (Includes(r.deviceType.value, os) <==> !r.deviceType.value.isNot))
    ensures r.location.Some? && r.deviceType.None? && city != "" ==>
      (RuleMatches(r, os, city) <==> (Includes(r.location.value, city) <==> !r.location.value.isNot))
    ensures r.location.Some? && r.deviceType.Some? ==>
      (RuleMatches(r, os, city) <==>
       RuleMatches(r.(location := None), os, city) && RuleMatches(r.(deviceType := None), os, city))
  {
  }

  // ---------------------------------------------------------------- records

  /** The answer names the link and its code, and gives the visitor's target. */
  lemma ServedAnswer(c: Config, db: Db, req: Request, f: Found)
    requires f.id in db.links && Served(c, db, req, f).1.Ok?
    ensures Served(c, db, req, f).0 == Recorded(c, db, req, f)
    ensures Served(c, db, req, f).1.value.linkId == f.id && Served(c, db, req, f).1.value.code == db.links[f.id].code
    ensures Served(c, db, req, f).1.value.url == OutgoingFor(c, db.links[f.id], req).url
  {
  }

  /** What a served visit leaves: one more visit on the link's row and one click row,
      unless the write of it fails, and nothing else. */
  lemma RecordedRows(c: Config, db: Db, req: Request, f: Found)
    requires f.id in db.links
    ensures
      var link, db' := db.links[f.id], Recorded(c, db, req, f);
      db'.links == (if req.visitFails then db.links
                    else db.links[f.id := link.(visits := link.visits + 1, lastVisitAt := Some(req.now))]) &&
      db' == db.(links := db'.links, clicks := db'.clicks) &&
      (req.clickFails ==> db'.clicks == db.clicks) &&
      (!req.clickFails ==> |db'.clicks| == |db.clicks| + 1 && db'.clicks[..|db.clicks|] == db.clicks)
  {
  }

  /** What the click row says: whose link was clicked, by whom, with which tags and
      flags, and the way the visitor came in. */
  lemma ClickSays(c: Config, db: Db, req: Request, f: Found)
    requires f.id in db.links && !req.clickFails
    ensures Recorded(c, db, req, f).clicks != []
    ensures
      var clicks, out := Recorded(c, db, req, f).clicks, OutgoingFor(c, db.links[f.id], req);
      var k := clicks[|clicks| - 1];
      k.linkId == f.id && k.orgId == db.links[f.id].orgId && k.visitor == req.visitor && k.tag == req.tag &&
      k.city == c.cityOf(req.visitor.ip) && k.utms == out.utms &&
      k.isDeeplink == out.isDeeplink && k.targetMatched == out.targetMatched &&
      k.entryPoint == f.scope.entry && k.prefixId == f.scope.prefixId
  {
  }

  /** The way in: under a prefix, on the deployment's own host, or on a custom domain,
      which has to be a verified one of the org that the link belongs to. */
  lemma EntryWay(c: Config, db: Db, req: Request)
    requires Reached(c, db, req).Ok?
    requires forall d :: d in db.domains ==> db.domains[d].orgId >= 1
    ensures
      var f := Reached(c, db, req).value;
      var own := IsDeploymentHost(req.visitor.host, c.shortDomain);
      f.id in db.links && EqualFold(db.links[f.id].code, req.code) &&
      f.scope.entry == (if req.prefix != "" then PrefixEntry else if own then RootEntry else DomainEntry) &&
      (!own ==> req.prefix == "" && exists d ::
         d in db.domains && db.domains[d].status == Verified && db.domains[d].orgId == db.links[f.id].orgId &&
         EqualFold(db.domains[d].hostname, NormalizeHost(req.visitor.host)))
  {
  }

  // ------------------------------------------------------- who reaches a link

  predicate OrgsPositive(db: Db) {
    (forall p :: p in db.prefixes ==> db.prefixes[p].orgId >= 1) &&
    (forall d :: d in db.domains ==> db.domains[d].orgId >= 1)
  }

  /** The way the request came in opens the org's links: the bare deployment host
      opens everyone's, an approved prefix under it and a verified domain those of
      their org. */
  ghost predicate Opens(c: Config, db: Db, req: Request, orgId: int) {
    if IsDeploymentHost(req.visitor.host, c.shortDomain) then
      req.prefix == "" || exists p ::
        HasPrefix(db.prefixes, p, req.prefix) && db.prefixes[p].status == Approved && db.prefixes[p].orgId == orgId
    else
      req.prefix == "" && exists d ::
        HasHostname(db.domains, d, NormalizeHost(req.visitor.host)) && db.domains[d].status == Verified &&
        db.domains[d].orgId == orgId
  }

  /** A request reaches a link if and only if it asks for its code, in any case, and
      comes in a way that opens the link's org. */
  lemma ReachedIff(c: Config, db: Db, req: Request, id: int)
    requires Namespace.Inv(c, db)
    ensures Reached(c, db, req).Ok? && Reached(c, db, req).value.id == id <==>
            HasCode(db.links, id, req.code) && Opens(c, db, req, db.links[id].orgId)
  {
    InvOrgs(c, db);
    HostScopeIff(c, db, req);
    if HasCode(db.links, id, req.code) { assert LinkByCode(db.links, req.code).value == id; }
  }

  lemma InvOrgs(c: Config, db: Db)
    requires Namespace.Inv(c, db)
    ensures OrgsPositive(db)
  {
    forall p | p in db.prefixes ensures db.prefixes[p].orgId >= 1 { assert Namespace.PrefixNamed(c, db.prefixes[p]); }
    forall d | d in db.domains ensures db.domains[d].orgId >= 1 { assert Namespace.DomainNamed(c, db.domains[d]); }
  }

  lemma HostScopeIff(c: Config, db: Db, req: Request)
    requires Keys(db) && OrgsPositive(db)
    ensures
      var scope := ScopeOf(c, db, req.prefix, req.visitor.host);
      forall orgId: int | orgId >= 1 ::
        Opens(c, db, req, orgId) <==> scope.Ok? && (scope.value.orgId == 0 || scope.value.orgId == orgId)
  {
    var p, d := PrefixByValue(db.prefixes, req.prefix), DomainByHostname(db.domains, NormalizeHost(req.visitor.host));
    assert forall other :: HasPrefix(db.prefixes, other, req.prefix) ==> p == Some(other);
    assert forall other :: HasHostname(db.domains, other, NormalizeHost(req.visitor.host)) ==> d == Some(other);
  }

  // ------------------------------------------------------------- the re-scan

  /** A link that was active and last clicked at or after the cutoff, with fewer than
      the cap's number of such links before it, a flagged URL and no failing write:
      after the run it is answered 410 to everyone who reaches it, and nothing is
      recorded. */
  lemma FlaggedIsGone(c: Config, gc: GuardConfig, w: World, req: Request, id: int, start: map<int, Link>, since: int,
                      verdict: int -> Rescan.Verdict, writeFails: int -> bool)
    requires
      var scanned := Rescan.FirstOf(Rescan.Matching(start, since, 1, w.db.nextLink), Rescan.MAX_LINKS);
      w.db.links == Rescan.WithDisabled(start, Rescan.Hits(scanned, verdict, writeFails))
    requires 1 <= id < w.db.nextLink && |Rescan.Matching(start, since, 1, id)| < Rescan.MAX_LINKS
    requires id in start && start[id].status == Active
    requires start[id].lastVisitAt.Some? && start[id].lastVisitAt.value >= since
    requires verdict(id) == Rescan.Flagged && !writeFails(id) && Reaches(c, w, req, id)
    ensures Resolve(c, gc, w, req).1 == Err(Gone) && Resolve(c, gc, w, req).0.db == w.db
  {
    InQueue(start, since, w.db.nextLink, id);
    Rescan.RunEnds(start, since, w.db.nextLink, verdict, writeFails, id);
    ServedIffOpen(c, gc, w, req, id);
  }

  /** A link's place in the queue is the number of queued links before it. */
  lemma InQueue(start: map<int, Link>, since: int, next: int, id: int)
    requires 1 <= id < next && id in start && start[id].status == Active
    requires start[id].lastVisitAt.Some? && start[id].lastVisitAt.value >= since
    requires |Rescan.Matching(start, since, 1, id)| < Rescan.MAX_LINKS
    ensures id in Rescan.FirstOf(Rescan.Matching(start, since, 1, next), Rescan.MAX_LINKS)
  {
    var before, work := Rescan.Matching(start, since, 1, id), Rescan.Matching(start, since, 1, next);
    Rescan.MatchingSplit(start, since, 1, id + 1, next);
    assert Rescan.Matching(start, since, 1, id + 1) == before + [id];
    assert work[|before|] == id;
    assert |work| > Rescan.MAX_LINKS ==> work[..Rescan.MAX_LINKS][|before|] == id;
  }

  /** No step of the run sets the status of the link. */
  ghost predicate LeftAlone(steps: seq<Clicks.Step>, id: int) {
    forall i :: 0 <= i < |steps| && steps[i].Serve? ==> !(steps[i].call.StatusSetting? && steps[i].call.id == id)
  }

  ghost predicate IsDisabled(c: Config, db: Db, id: int) {
    Clicks.Good(c, db) && id in db.links && db.links[id].status == DisabledAbuse
  }

  lemma VisitKeepsDisabled(c: Config, gc: GuardConfig, w: World, req: Request, id: int)
    requires IsDisabled(c, w.db, id)
    ensures IsDisabled(c, Resolve(c, gc, w, req).0.db, id)
    ensures Resolve(c, gc, w, req).1.Ok? ==> Resolve(c, gc, w, req).1.value.linkId != id
  {
    Clicks.VisitCounts(c, gc, w, req, id);
    if Resolve(c, gc, w, req).1.Ok? {
      Clicks.ResolvedRecords(c, gc, w, req);
      RecordedRows(c, w.db, req, Reached(c, w.db, req).value);
    }
  }

  lemma CallKeepsDisabled(c: Config, db: Db, call: Namespace.Call, id: int)
    requires IsDisabled(c, db, id) && Nested(c.reserved) && Namespace.Genuine(call)
    requires !(call.StatusSetting? && call.id == id)
    ensures IsDisabled(c, Perform(db, Namespace.PlanOf(c, db, call)).0, id)
  {
    Clicks.CallCounts(c, db, call, id);
    Authority.LinksHaveCause(c, db, call, id);
  }

  lemma StepKeepsDisabled(c: Config, gc: GuardConfig, w: World, s: Clicks.Step, id: int)
    requires IsDisabled(c, w.db, id) && Nested(c.reserved)
    requires s.Serve? ==> Namespace.Genuine(s.call) && !(s.call.StatusSetting? && s.call.id == id)
    ensures IsDisabled(c, Clicks.After(c, gc, w, s).db, id) && Clicks.TallyOf(c, gc, w, s, id) == Clicks.NOTHING
  {
    match s
    case Serve(call) => CallKeepsDisabled(c, w.db, call, id);
    case Visit(req) => VisitKeepsDisabled(c, gc, w, req, id);
    case Peek(req) => Clicks.FailureRecordsNothing(c, gc, w, req);
  }

  /** A disabled link stays so, and no visit to it is served, whatever is called,
      visited and previewed, until a call sets its status. */
  lemma {:induction false} DisabledStays(c: Config, gc: GuardConfig, w: World, steps: seq<Clicks.Step>, id: int)
    requires IsDisabled(c, w.db, id) && Nested(c.reserved) && Clicks.GenuineSteps(steps) && LeftAlone(steps, id)
    ensures IsDisabled(c, Clicks.RunSteps(c, gc, w, steps).db, id)
    ensures Clicks.TallyRun(c, gc, w, steps, id) == Clicks.NOTHING
    decreases |steps|
  {
    if steps != [] {
      StepKeepsDisabled(c, gc, w, steps[0], id);
      DisabledStays(c, gc, Clicks.After(c, gc, w, steps[0]), steps[1..], id);
    }
  }
}
