/** Displayed short URLs against the two things that read them: the resolver and
    the shortener. */
module Display {
  import opened Common
  import opened Tables
  import opened Urls
  import opened Hosts
  import opened Services
  import opened Links
  import opened Namespace
  import opened Reserved
  import opened Throttle
  import opened Resolver
  import Clicks

  /** The request a browser makes for a URL text, by host and route. */
  ghost predicate Requests(req: Request, text: string) {
    ParseUrl(text).Some? &&
    req.visitor.host == ParseUrl(text).value.host &&
    Route(ParseUrl(text).value.path) == Some((req.prefix, req.code))
  }

  ghost predicate ShownAt(c: Config, db: Db, id: int, domainFails: bool, prefixFails: bool, text: string) {
    id in db.links &&
    text == ShortUrl(DisplayBase(c, db, db.links[id].orgId, domainFails, prefixFails), db.links[id].code)
  }

  lemma CodeFinds(links: map<int, Link>, next: int, id: int)
    requires LinkKeys(links, next) && id in links
    ensures LinkByCode(links, links[id].code) == Some(id)
  {
    assert HasCode(links, id, links[id].code);
  }

  lemma PrefixFinds(prefixes: map<int, BrandPrefix>, next: int, id: int)
    requires PrefixKeys(prefixes, next) && id in prefixes
    ensures PrefixByValue(prefixes, prefixes[id].prefix) == Some(id)
  {
    assert HasPrefix(prefixes, id, prefixes[id].prefix);
  }

  lemma HostnameFinds(domains: map<int, Domain>, next: int, id: int)
    requires DomainKeys(domains, next) && id in domains
    ensures DomainByHostname(domains, domains[id].hostname) == Some(id)
  {
    assert HasHostname(domains, id, domains[id].hostname);
  }

  lemma HostnameClean(c: Config, d: Domain)
    requires DomainNamed(c, d)
    ensures CleanHost(d.hostname) && NormalizeHost(d.hostname) == d.hostname
  {
    ValidIsNormal(d.hostname, c.shortDomain);
    HostCharsClean(d.hostname);
  }

  lemma HostCharsClean(h: string)
    requires h != [] && forall i :: 0 <= i < |h| ==> HostChar(h[i])
    ensures CleanHost(h)
  {
  }

  /** The parts of a displayed URL print and parse cleanly. */
  lemma BaseClean(c: Config, db: Db, id: int, domainFails: bool, prefixFails: bool)
    requires WellConfigured(c) && Inv(c, db) && id in db.links
    ensures
      var b := DisplayBase(c, db, db.links[id].orgId, domainFails, prefixFails);
      HttpScheme(b.scheme) && CleanHost(b.host) && CleanTail(b.prefix, db.links[id].code)
  {
    assert LinkNamed(c, db.links[id]);
    var d := PrimaryDomain(db.domains, db.links[id].orgId);
    if d.Some? { HostnameClean(c, db.domains[d.value]); }
  }

  lemma ShownRequest(c: Config, db: Db, id: int, domainFails: bool, prefixFails: bool, text: string, req: Request)
    requires WellConfigured(c) && Inv(c, db) && ShownAt(c, db, id, domainFails, prefixFails, text) &&
             Requests(req, text)
    ensures
      var b := DisplayBase(c, db, db.links[id].orgId, domainFails, prefixFails);
      req.visitor.host == b.host && req.prefix == b.prefix && req.code == db.links[id].code
  {
    var b := DisplayBase(c, db, db.links[id].orgId, domainFails, prefixFails);
    BaseClean(c, db, id, domainFails, prefixFails);
    ShortUrlIsPrint(b, db.links[id].code);
    PrintParses(b.scheme, b.host, b.prefix, db.links[id].code);
    PrintRoutes(b.prefix, db.links[id].code);
  }

  /** The scope a displayed base leads to. */
  ghost function BaseScope(c: Config, db: Db, orgId: int, b: Base): Scope {
    if b.host != c.shortDomain && !IsDeploymentHost(b.host, c.shortDomain) then Scope(orgId, DomainEntry, 0)
    else if b.prefix != "" then
      var p := PrimaryPrefix(db.prefixes, orgId);
      Scope(orgId, PrefixEntry, if p.Some? then p.value else 0)
    else Scope(0, RootEntry, 0)
  }

  lemma BaseScoped(c: Config, db: Db, orgId: int, domainFails: bool, prefixFails: bool)
    requires WellConfigured(c) && Inv(c, db) && orgId >= 1
    ensures
      var b := DisplayBase(c, db, orgId, domainFails, prefixFails);
      ScopeOf(c, db, b.prefix, b.host) == Ok(BaseScope(c, db, orgId, b))
  {
    var b := DisplayBase(c, db, orgId, domainFails, prefixFails);
    var d := PrimaryDomain(db.domains, orgId);
    var p := PrimaryPrefix(db.prefixes, orgId);
    assert IsDeploymentHost(c.shortDomain, c.shortDomain);
    if !domainFails && d.Some? {
      var row := db.domains[d.value];
      HostnameClean(c, row);
      HostnameFinds(db.domains, db.nextDomain, d.value);
      assert b == Base("https", row.hostname, "");
      assert row.hostname == c.shortDomain ==> IsDeploymentHost(row.hostname, c.shortDomain);
    } else if !prefixFails && p.Some? {
      PrefixFinds(db.prefixes, db.nextPrefix, p.value);
      assert PrefixNamed(c, db.prefixes[p.value]);
    }
  }

  /** Reachability: in every reachable state, whatever the display base is and
      whichever of its lookups failed, requesting the displayed URL of a link
      reaches exactly that link. */
  lemma DisplayedReaches(c: Config, db: Db, id: int, domainFails: bool, prefixFails: bool, text: string, req: Request)
    requires WellConfigured(c) && Inv(c, db) && ShownAt(c, db, id, domainFails, prefixFails, text) &&
             Requests(req, text)
    ensures
      var b := DisplayBase(c, db, db.links[id].orgId, domainFails, prefixFails);
      Reached(c, db, req) == Ok(Found(id, BaseScope(c, db, db.links[id].orgId, b)))
  {
    assert LinkNamed(c, db.links[id]);
    ShownRequest(c, db, id, domainFails, prefixFails, text, req);
    BaseScoped(c, db, db.links[id].orgId, domainFails, prefixFails);
    CodeFinds(db.links, db.nextLink, id);
  }

  /** The state that a run of service calls, visits and previews leads to from
      an empty deployment. */
  ghost predicate RunTo(c: Config, gc: GuardConfig, guard: Option<Guard>, steps: seq<Clicks.Step>, w: World) {
    Clicks.GenuineSteps(steps) && w == Clicks.RunSteps(c, gc, World(EMPTY, guard), steps)
  }

  lemma RunToInv(c: Config, gc: GuardConfig, guard: Option<Guard>, steps: seq<Clicks.Step>, w: World)
    requires Nested(c.reserved) && RunTo(c, gc, guard, steps, w)
    ensures Inv(c, w.db)
  {
    Clicks.ClicksConserved(c, gc, World(EMPTY, guard), steps, 0);
  }

  /** The whole pipeline, over runs: whatever calls, visits and previews came
      before, an unblocked client that requests the displayed URL of an available
      link is sent to that link. */
  lemma DisplayedResolves(c: Config, gc: GuardConfig, guard: Option<Guard>, steps: seq<Clicks.Step>, w: World,
                          id: int, domainFails: bool, prefixFails: bool, text: string, req: Request)
    requires WellConfigured(c) && RunTo(c, gc, guard, steps, w)
    requires ShownAt(c, w.db, id, domainFails, prefixFails, text) && Unavailable(w.db.links[id], req.now).None?
    requires Requests(req, text) && !Guarded(gc, w.guard, req, true).1
    ensures
      var r := Resolve(c, gc, w, req).1;
      r.Ok? && r.value.linkId == id && r.value.code == w.db.links[id].code
  {
    RunToInv(c, gc, guard, steps, w);
    DisplayedReaches(c, w.db, id, domainFails, prefixFails, text, req);
  }

  /** A displayed custom domain is entered as DOMAIN, save for the literal
      127.0.0.1, which counts as the deployment host. */
  lemma DomainEntered(c: Config, db: Db, orgId: int, prefixFails: bool)
    requires WellConfigured(c) && Inv(c, db) && orgId >= 1 && PrimaryDomain(db.domains, orgId).Some?
    ensures
      var b := DisplayBase(c, db, orgId, false, prefixFails);
      BaseScope(c, db, orgId, b).entry == if b.host == "127.0.0.1" then RootEntry else DomainEntry
  {
    var d := db.domains[PrimaryDomain(db.domains, orgId).value];
    HostnameClean(c, d);
    assert DomainNamed(c, d);
    StoredHostIsForeign(d.hostname, c.shortDomain);
  }

  // ------------------------------------------------------- print, then shorten

  lemma TrimmedSlash(tail: string)
    requires tail != "" && tail[0] != '/' && tail[|tail| - 1] != '/'
    ensures Trim("/" + tail, IsSlash) == tail
  {
    assert ("/" + tail)[1..] == tail;
    assert TrimLeft("/" + tail, IsSlash) == TrimLeft(tail, IsSlash) == tail;
    assert TrimRight(tail, IsSlash) == tail;
  }

  lemma TrimmedTail(prefix: string, code: string)
    requires CleanTail(prefix, code)
    ensures ReadPath("/" + Tail(prefix, code)) == ShortPath(prefix, code, prefix != "")
    ensures code != "" && '/' !in code
  {
    var tail := Tail(prefix, code);
    TrimmedSlash(tail);
    if prefix == "" {
      assert IndexOf(code, '/') == -1;
    } else {
      assert tail == prefix + ("/" + code);
      IndexOfConcat(prefix, "/" + code, '/');
      assert tail[|prefix| + 1..] == code && tail[..|prefix|] == prefix;
    }
  }

  /** The base is the short domain, not a custom domain. */
  ghost predicate OnShortDomain(db: Db, orgId: int, domainFails: bool) {
    domainFails || PrimaryDomain(db.domains, orgId).None?
  }

  lemma DisplayedUrl(c: Config, db: Db, id: int, domainFails: bool, prefixFails: bool, text: string)
    requires WellConfigured(c) && Inv(c, db) && ShownAt(c, db, id, domainFails, prefixFails, text)
    ensures
      var b := DisplayBase(c, db, db.links[id].orgId, domainFails, prefixFails);
      NormalizeUrl(text) == Ok(Url(b.scheme, b.host, "/" + Tail(b.prefix, db.links[id].code), text)) &&
      (EqualFold(b.host, c.shortDomain) <==> OnShortDomain(db, db.links[id].orgId, domainFails))
  {
    var b := DisplayBase(c, db, db.links[id].orgId, domainFails, prefixFails);
    BaseClean(c, db, id, domainFails, prefixFails);
    ShortUrlIsPrint(b, db.links[id].code);
    PrintNormalizes(b.scheme, b.host, b.prefix, db.links[id].code);
    BaseHost(c, db, db.links[id].orgId, domainFails, prefixFails);
  }

  /** The displayed host is the short domain unless a custom domain is displayed. */
  lemma BaseHost(c: Config, db: Db, orgId: int, domainFails: bool, prefixFails: bool)
    requires Inv(c, db)
    ensures EqualFold(DisplayBase(c, db, orgId, domainFails, prefixFails).host, c.shortDomain) <==>
            OnShortDomain(db, orgId, domainFails)
  {
    if !OnShortDomain(db, orgId, domainFails) {
      var d := db.domains[PrimaryDomain(db.domains, orgId).value];
      assert DomainNamed(c, d);
      ForeignHostname(c, d);
    }
  }

  lemma ForeignHostname(c: Config, d: Domain)
    requires DomainNamed(c, d)
    ensures d.hostname != "" && !EqualFold(d.hostname, c.shortDomain)
  {
    ValidIsNormal(d.hostname, c.shortDomain);
    StoredHostIsForeign(d.hostname, c.shortDomain);
  }

  lemma ExistingFound(c: Config, db: Db, id: int, viewer: int, domainFails: bool, prefixFails: bool)
    requires WellConfigured(c) && Inv(c, db) && id in db.links && VisibleTo(db.links[id], viewer)
    requires OnShortDomain(db, db.links[id].orgId, domainFails)
    ensures
      var b := DisplayBase(c, db, db.links[id].orgId, domainFails, prefixFails);
      PlanExisting(db, db.links[id].orgId, viewer, "/" + Tail(b.prefix, db.links[id].code)) == Answer(id)
  {
    var link := db.links[id];
    assert LinkNamed(c, link);
    var b := DisplayBase(c, db, link.orgId, domainFails, prefixFails);
    BaseClean(c, db, id, domainFails, prefixFails);
    TrimmedTail(b.prefix, link.code);
    CodeFinds(db.links, db.nextLink, id);
    var p := PrimaryPrefix(db.prefixes, link.orgId);
    if p.Some? { PrefixFinds(db.prefixes, db.nextPrefix, p.value); }
  }

  /** The call answers the link and leaves the tables as they are. */
  ghost predicate Echoes(c: Config, db: Db, creator: Option<int>, input: ShortenInput, o: Outside, orgId: int,
                         id: int) {
    Perform(db, PlanShorten(c, db, orgId, creator, input, o)) == (db, Ok(id))
  }

  /** On a custom domain the URL is a destination like any other, and only dedupe can
      lead back to the link: the call is allowed and valid, asks for no alias, and the
      org's first visible link with that very destination is this one. */
  ghost predicate Dedupes(c: Config, db: Db, creator: Option<int>, input: ShortenInput, o: Outside, orgId: int,
                          id: int) {
    o.policy.Allow? && !o.flagged && ScheduleValid(input) && input.rules.Some? && TrimSpace(input.alias) == "" &&
    FindByDestination(db.links, orgId, Viewer(creator), c.appendUtms(input.url, TrimUtms(input.utms))) == Some(id)
  }

  /** Print and parse round trip, with its exact condition for every answer of the
      policy, the scanner, randomness and the stores: shortening the displayed URL of
      a link the viewer may see answers that link and writes nothing if and only if
      the URL was displayed on the short domain, or dedupe finds the link. */
  lemma PrintThenShorten(c: Config, db: Db, id: int, creator: Option<int>, input: ShortenInput, o: Outside,
                         domainFails: bool, prefixFails: bool)
    requires WellConfigured(c) && Inv(c, db) && ShownAt(c, db, id, domainFails, prefixFails, input.url)
    requires MayShorten(input, creator) && VisibleTo(db.links[id], Viewer(creator))
    ensures
      var orgId := db.links[id].orgId;
      Echoes(c, db, creator, input, o, orgId, id) <==>
      OnShortDomain(db, orgId, domainFails) || Dedupes(c, db, creator, input, o, orgId, id)
  {
    if OnShortDomain(db, db.links[id].orgId, domainFails) {
      ShortDomainEchoes(c, db, id, creator, input, o, domainFails, prefixFails);
    } else {
      CustomDomainEchoes(c, db, id, creator, input, o, domainFails, prefixFails);
    }
  }

  lemma ShortDomainEchoes(c: Config, db: Db, id: int, creator: Option<int>, input: ShortenInput, o: Outside,
                          domainFails: bool, prefixFails: bool)
    requires WellConfigured(c) && Inv(c, db) && ShownAt(c, db, id, domainFails, prefixFails, input.url)
    requires MayShorten(input, creator) && VisibleTo(db.links[id], Viewer(creator))
    requires OnShortDomain(db, db.links[id].orgId, domainFails)
    ensures Echoes(c, db, creator, input, o, db.links[id].orgId, id)
  {
    DisplayedUrl(c, db, id, domainFails, prefixFails, input.url);
    ExistingFound(c, db, id, Viewer(creator), domainFails, prefixFails);
  }

  /** A creation answers an existing link, unchanged, iff dedupe finds it. */
  lemma CreationEchoes(c: Config, db: Db, orgId: int, creator: Option<int>, kind: LinkType, dest: Url,
                       input: ShortenInput, o: Outside, id: int)
    requires LinkKeys(db.links, db.nextLink) && id in db.links && dest.text == input.url
    ensures Perform(db, PlanCreate(c, db, orgId, creator, kind, dest, input, o)) == (db, Ok(id)) <==>
            Dedupes(c, db, creator, input, o, orgId, id)
  {
  }

  lemma CustomDomainEchoes(c: Config, db: Db, id: int, creator: Option<int>, input: ShortenInput, o: Outside,
                           domainFails: bool, prefixFails: bool)
    requires WellConfigured(c) && Inv(c, db) && ShownAt(c, db, id, domainFails, prefixFails, input.url)
    requires MayShorten(input, creator) && !OnShortDomain(db, db.links[id].orgId, domainFails)
    ensures Echoes(c, db, creator, input, o, db.links[id].orgId, id) <==>
            Dedupes(c, db, creator, input, o, db.links[id].orgId, id)
  {
    DisplayedUrl(c, db, id, domainFails, prefixFails, input.url);
    var dest := NormalizeUrl(input.url).value;
    CreationEchoes(c, db, db.links[id].orgId, creator, NormalizeLinkType(input.kind).value, dest, input, o, id);
  }
}
