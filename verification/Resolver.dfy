/** Public resolution: scoping by host and prefix, the guess throttle, the
    outgoing URL, and what is recorded. */
module Resolver {
  import opened Common
  import opened Tables
  import opened Hosts
  import opened Services
  import opened Throttle

  /** The database and the throttle; None when throttling is off. */
  datatype World = World(db: Db, guard: Option<Guard>)

  /** One resolution request, its clock readings in the order they are made, and
      which best-effort reads and writes fail. */
  datatype Request = Request(
    prefix: string, code: string, tag: string, visitor: Visitor,
    askedAt: int, missAt: int, now: int,
    rulesFail: bool, visitFails: bool, clickFails: bool)

  /** Where a resolution entered; org 0 is the global namespace. */
  datatype Scope = Scope(orgId: int, entry: EntryPoint, prefixId: int)

  datatype Found = Found(id: int, scope: Scope)

  datatype Resolution = Resolution(linkId: int, code: string, url: string)

  datatype Preview = Preview(code: string, destination: string, disabled: bool)

  // ----------------------------------------------------------------- scoping

  ghost function HostScope(c: Config, db: Db, host: string): Result<int> {
    if IsDeploymentHost(host, c.shortDomain) then Ok(0)
    else
      var d := DomainByHostname(db.domains, NormalizeHost(host));
      if d.None? || db.domains[d.value].status != Verified then Err(NotFound) else Ok(db.domains[d.value].orgId)
  }

  ghost function ScopeOf(c: Config, db: Db, prefix: string, host: string): Result<Scope> {
    match HostScope(c, db, host)
    case Err(e) => Err(e)
    case Ok(orgId) =>
      if prefix == "" then Ok(if orgId != 0 then Scope(orgId, DomainEntry, 0) else Scope(0, RootEntry, 0))
      else if orgId != 0 then Err(NotFound)
      else
        var p := PrefixByValue(db.prefixes, prefix);
        if p.None? || db.prefixes[p.value].status != Approved then Err(NotFound)
        else Ok(Scope(db.prefixes[p.value].orgId, PrefixEntry, p.value))
  }

  /** The link a request reaches, ignoring the throttle. */
  ghost function Reached(c: Config, db: Db, req: Request): Result<Found> {
    match ScopeOf(c, db, req.prefix, req.visitor.host)
    case Err(e) => Err(e)
    case Ok(scope) =>
      var link := LinkByCode(db.links, req.code);
      if link.None? || (scope.orgId != 0 && db.links[link.value].orgId != scope.orgId) then Err(NotFound)
      else Ok(Found(link.value, scope))
  }

  /** The throttle's part of a lookup: the check, then a miss unless found. */
  function Guarded(gc: GuardConfig, guard: Option<Guard>, req: Request, found: bool): (Option<Guard>, bool) {
    match guard
    case None => (None, false)
    case Some(g) =>
      var (g', blocked) := Drive(gc, g, Lookup(req.visitor.ip, req.askedAt, if found then None else Some(req.missAt)));
      (Some(g'), blocked)
  }

  ghost function LookupLink(c: Config, gc: GuardConfig, w: World, req: Request): (World, Result<Found>) {
    var found := Reached(c, w.db, req);
    var (guard, blocked) := Guarded(gc, w.guard, req, found.Ok?);
    (w.(guard := guard), if blocked then Err(TooManyRequests) else found)
  }

  // ---------------------------------------------------------- outgoing URL

  ghost predicate ConditionHolds(cond: Condition, value: string) {
    (exists i :: 0 <= i < |cond.values| && EqualFold(cond.values[i], value)) != cond.isNot
  }

  /** Every present condition holds; an unknown city fails any location condition. */
  ghost predicate RuleMatches(r: Rule, mobileOS: string, city: string) {
    && (r.deviceType.Some? ==> ConditionHolds(r.deviceType.value, mobileOS))
    && (r.location.Some? ==> city != "" && ConditionHolds(r.location.value, city))
    && (r.deviceType.Some? || r.location.Some?)
  }

  /** The URL of the first matching rule. */
  ghost function MatchRules(rules: seq<Rule>, mobileOS: string, city: string): Option<string> {
    if rules == [] then None
    else if RuleMatches(rules[0], mobileOS, city) then Some(rules[0].url)
    else MatchRules(rules[1..], mobileOS, city)
  }

  /** First match wins: the answer is the first matching rule's URL, and there is
      none exactly when no rule matches. */
  lemma {:induction false} FirstMatchWins(rules: seq<Rule>, mobileOS: string, city: string)
    ensures
      match MatchRules(rules, mobileOS, city)
      case None => forall r :: r in rules ==> !RuleMatches(r, mobileOS, city)
      case Some(url) => exists i :: 0 <= i < |rules| && rules[i].url == url && RuleMatches(rules[i], mobileOS, city) &&
                          forall j :: 0 <= j < i ==> !RuleMatches(rules[j], mobileOS, city)
  {
    if rules != [] && !RuleMatches(rules[0], mobileOS, city) {
      FirstMatchWins(rules[1..], mobileOS, city);
      if MatchRules(rules, mobileOS, city).Some? {
        var i :| 0 <= i < |rules[1..]| && rules[1..][i].url == MatchRules(rules, mobileOS, city).value &&
          RuleMatches(rules[1..][i], mobileOS, city) &&
          forall j :: 0 <= j < i ==> !RuleMatches(rules[1..][j], mobileOS, city);
        assert rules[i + 1] == rules[1..][i];
        assert forall j :: 0 < j < i + 1 ==> rules[j] == rules[1..][j - 1];
      }
    }
  }

  function DeeplinkUrl(c: Config, d: Option<Deeplink>, mobileOS: string): Option<string> {
    if d.None? then None
    else if d.value.android.Some? && mobileOS == "Android" then
      var a := d.value.android.value;
      Some("intent:" + a.intent + "#Intent;package=" + a.package + ";scheme=" + a.scheme +
           ";S.browser_fallback_url=" + c.queryEscape(a.fallback) + ";end;")
    else if d.value.ios.Some? && mobileOS == "iOS" then d.value.ios
    else None
  }

  function UtmSource(c: Config, referrerHost: string): string {
    if referrerHost == "" then c.selfSource
    else if referrerHost == "t.co" || Contains(referrerHost, "twitter") then "twitter"
    else if Contains(referrerHost, "google") then "google"
    else if Contains(referrerHost, "facebook") then "facebook"
    else referrerHost
  }

  function ApplyUtms(c: Config, config: LinkConfig, v: Visitor): (string, Utms) {
    if config.utms != Utms("", "", "") then (config.destination, config.utms)
    else
      var auto := Utms(UtmSource(c, v.referrerHost), "referrer by " + v.deviceType, "");
      (c.appendUtms(config.destination, auto), auto)
  }

  /** Where a visitor goes and how the click is flagged: a rule overrides a deep
      link, which overrides the tagged destination. */
  datatype Outgoing = Outgoing(url: string, utms: Utms, isDeeplink: bool, targetMatched: bool)

  ghost function OutgoingFor(c: Config, link: Link, req: Request): Outgoing {
    var (url, utms) := ApplyUtms(c, link.config, req.visitor);
    var deep := DeeplinkUrl(c, link.config.deeplink, req.visitor.mobileOS);
    var rule := if req.rulesFail then None
                else MatchRules(link.config.rules, req.visitor.mobileOS, c.cityOf(req.visitor.ip));
    Outgoing(if rule.Some? then rule.value else if deep.Some? then deep.value else url,
             utms, deep.Some?, rule.Some?)
  }

  // --------------------------------------------------------------- pipeline

  /** Active and inside its window at the given time: the error if not. */
  function Unavailable(link: Link, now: int): Option<Error> {
    if link.status == DisabledAbuse then Some(Gone)
    else if link.config.activatesAt.Some? && now < link.config.activatesAt.value then Some(NotFound)
    else if link.config.expiresAt.Some? && now >= link.config.expiresAt.value then Some(Gone)
    else None
  }

  ghost function ClickFor(c: Config, db: Db, req: Request, f: Found): Click
    requires f.id in db.links
  {
    var link := db.links[f.id];
    var out := OutgoingFor(c, link, req);
    Click(link.orgId, f.id, out.utms, req.visitor, c.cityOf(req.visitor.ip), out.isDeeplink, out.targetMatched,
          req.tag, f.scope.entry, f.scope.prefixId)
  }

  ghost function Recorded(c: Config, db: Db, req: Request, f: Found): Db
    requires f.id in db.links
  {
    var db1 := if req.visitFails then db else Exec(db, RecordVisit(f.id, req.now)).0;
    if req.clickFails then db1 else Exec(db1, InsertClick(ClickFor(c, db, req, f))).0
  }

  /** A found link is served, and recorded, only while it is available. */
  ghost function Served(c: Config, db: Db, req: Request, f: Found): (Db, Result<Resolution>)
    requires f.id in db.links
  {
    var link := db.links[f.id];
    var e := Unavailable(link, req.now);
    if e.Some? then (db, Err(e.value))
    else (Recorded(c, db, req, f), Ok(Resolution(f.id, link.code, OutgoingFor(c, link, req).url)))
  }

  ghost function Resolve(c: Config, gc: GuardConfig, w: World, req: Request): (World, Result<Resolution>) {
    var (w1, found) := LookupLink(c, gc, w, req);
    match found
    case Err(e) => (w1, Err(e))
    case Ok(f) =>
      var (db', r) := Served(c, w.db, req, f);
      (w1.(db := db'), r)
  }

  ghost function PreviewLink(c: Config, gc: GuardConfig, w: World, req: Request): (World, Result<Preview>) {
    var (w1, found) := LookupLink(c, gc, w, req);
    match found
    case Err(e) => (w1, Err(e))
    case Ok(f) =>
      var link := w.db.links[f.id];
      (w1, Ok(Preview(link.code, link.config.destination, link.status == DisabledAbuse)))
  }

  // ------------------------------------------------------------------ service

  class ResolveService {
    const c: Config
    const db: Database
    const throttle: GuessThrottle?

    ghost function View(): World
      reads db, if throttle == null then {} else {throttle}
    {
      World(db.View(), if throttle == null then None else Some(throttle.View()))
    }

    ghost function Limits(): GuardConfig {
      if throttle == null then WIRED else throttle.config
    }

    constructor (c: Config, db: Database, throttle: GuessThrottle?)
      ensures this.c == c && this.db == db && this.throttle == throttle
    {
      this.c, this.db, this.throttle := c, db, throttle;
    }

    method HostScopeOf(host: string) returns (r: Result<int>)
      requires db.Valid()
      ensures r == HostScope(c, db.View(), host)
    {
      if IsDeploymentHost(host, c.shortDomain) { return Ok(0); }
      var d := db.FindDomain(NormalizeHost(host));
      if d.None? || db.domains[d.value].status != Verified { return Err(NotFound); }
      return Ok(db.domains[d.value].orgId);
    }

    method Classify(prefix: string, host: string) returns (r: Result<Scope>)
      requires db.Valid()
      ensures r == ScopeOf(c, db.View(), prefix, host)
    {
      var org := HostScopeOf(host);
      if org.Err? { return Err(org.error); }
      if prefix == "" {
        if org.value != 0 { return Ok(Scope(org.value, DomainEntry, 0)); }
        return Ok(Scope(0, RootEntry, 0));
      }
      if org.value != 0 { return Err(NotFound); }
      var p := db.FindPrefix(prefix);
      if p.None? || db.prefixes[p.value].status != Approved { return Err(NotFound); }
      return Ok(Scope(db.prefixes[p.value].orgId, PrefixEntry, p.value));
    }

    method Find(req: Request) returns (r: Result<Found>)
      requires db.Valid()
      modifies if throttle == null then {} else {throttle}
      ensures (View(), r) == LookupLink(c, Limits(), old(View()), req)
    {
      if throttle != null {
        var blocked := throttle.Blocked(req.visitor.ip, req.askedAt);
        if blocked { return Err(TooManyRequests); }
      }
      var scope := Classify(req.prefix, req.visitor.host);
      if scope.Err? {
        // Every scope error is a 404, which counts as a miss.
        if throttle != null { throttle.RecordMiss(req.visitor.ip, req.missAt); }
        return Err(scope.error);
      }
      var link := db.FindLink(req.code);
      if link.None? || (scope.value.orgId != 0 && db.links[link.value].orgId != scope.value.orgId) {
        if throttle != null { throttle.RecordMiss(req.visitor.ip, req.missAt); }
        return Err(NotFound);
      }
      return Ok(Found(link.value, scope.value));
    }

    method ConditionMatches(cond: Condition, value: string) returns (r: bool)
      ensures r <==> ConditionHolds(cond, value)
    {
      var anyEqual := false;
      for i := 0 to |cond.values|
        invariant !anyEqual && forall j :: 0 <= j < i ==> !EqualFold(cond.values[j], value)
      {
        if EqualFold(cond.values[i], value) {
          anyEqual := true;
          break;
        }
      }
      return if cond.isNot then !anyEqual else anyEqual;
    }

    method RuleApplies(r: Rule, mobileOS: string, city: string) returns (m: bool)
      ensures m <==> RuleMatches(r, mobileOS, city)
    {
      if r.deviceType.Some? {
        var ok := ConditionMatches(r.deviceType.value, mobileOS);
        if !ok { return false; }
      }
      if r.location.Some? {
        if city == "" { return false; }
        var ok := ConditionMatches(r.location.value, city);
        if !ok { return false; }
      }
      return r.deviceType.Some? || r.location.Some?;
    }

    method MatchTargetRules(rules: seq<Rule>, mobileOS: string, city: string) returns (url: Option<string>)
      ensures url == MatchRules(rules, mobileOS, city)
    {
      assert rules[0..] == rules;
      for i := 0 to |rules|
        invariant MatchRules(rules, mobileOS, city) == MatchRules(rules[i..], mobileOS, city)
      {
        assert rules[i..][1..] == rules[i + 1..];
        var m := RuleApplies(rules[i], mobileOS, city);
        if m { return Some(rules[i].url); }
      }
      return None;
    }

    method Follow(link: Link, req: Request) returns (out: Outgoing)
      ensures out == OutgoingFor(c, link, req)
    {
      var (url, utms) := ApplyUtms(c, link.config, req.visitor);
      var deep := DeeplinkUrl(c, link.config.deeplink, req.visitor.mobileOS);
      if deep.Some? { url := deep.value; }
      var rule: Option<string> := None;
      if !req.rulesFail {
        rule := MatchTargetRules(link.config.rules, req.visitor.mobileOS, c.cityOf(req.visitor.ip));
      }
      if rule.Some? { url := rule.value; }
      return Outgoing(url, utms, deep.Some?, rule.Some?);
    }

    method Record(req: Request, f: Found, out: Outgoing)
      requires db.Valid() && f.id in db.links && out == OutgoingFor(c, db.links[f.id], req)
      modifies db
      ensures db.Valid() && db.View() == Recorded(c, old(db.View()), req, f)
    {
      var click := Click(db.links[f.id].orgId, f.id, out.utms, req.visitor, c.cityOf(req.visitor.ip), out.isDeeplink,
                         out.targetMatched, req.tag, f.scope.entry, f.scope.prefixId);
      if !req.visitFails {
        var _ := db.Run(RecordVisit(f.id, req.now));
      }
      if !req.clickFails {
        var _ := db.Run(InsertClick(click));
      }
    }

    method Serve(req: Request, f: Found) returns (r: Result<Resolution>)
      requires db.Valid() && f.id in db.links
      modifies db
      ensures db.Valid() && (db.View(), r) == Served(c, old(db.View()), req, f)
    {
      var link := db.links[f.id];
      if link.status == DisabledAbuse { return Err(Gone); }
      if link.config.activatesAt.Some? && req.now < link.config.activatesAt.value { return Err(NotFound); }
      if link.config.expiresAt.Some? && req.now >= link.config.expiresAt.value { return Err(Gone); }
      var out := Follow(link, req);
      Record(req, f, out);
      return Ok(Resolution(f.id, link.code, out.url));
    }

    method Visit(req: Request) returns (r: Result<Resolution>)
      requires db.Valid()
      modifies db, if throttle == null then {} else {throttle}
      ensures db.Valid()
      ensures (View(), r) == Resolve(c, Limits(), old(View()), req)
    {
      var found := Find(req);
      if found.Err? { return Err(found.error); }
      r := Serve(req, found.value);
    }

    method PreviewByCode(req: Request) returns (r: Result<Preview>)
      requires db.Valid()
      modifies if throttle == null then {} else {throttle}
      ensures (View(), r) == PreviewLink(c, Limits(), old(View()), req)
    {
      var found := Find(req);
      if found.Err? { return Err(found.error); }
      var link := db.links[found.value.id];
      return Ok(Preview(link.code, link.config.destination, link.status == DisabledAbuse));
    }
  }
}
