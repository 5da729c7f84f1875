/** A request through an org's own domain or prefix sees that org's rows only. */
module Isolation {
  import opened Common
  import opened Tables
  import opened Hosts
  import opened Services
  import opened Prefixes
  import opened Domains
  import opened Namespace
  import opened Throttle
  import opened Resolver

  ghost predicate SameLinks(a: map<int, Link>, b: map<int, Link>, orgId: int) {
    forall id :: OwnedLink(a, orgId, id) || OwnedLink(b, orgId, id) ==> id in a && id in b && a[id] == b[id]
  }

  ghost predicate SamePrefixes(a: map<int, BrandPrefix>, b: map<int, BrandPrefix>, orgId: int) {
    forall id :: OwnedPrefix(a, orgId, id) || OwnedPrefix(b, orgId, id) ==> id in a && id in b && a[id] == b[id]
  }

  ghost predicate SameDomains(a: map<int, Domain>, b: map<int, Domain>, orgId: int) {
    forall id :: OwnedDomain(a, orgId, id) || OwnedDomain(b, orgId, id) ==> id in a && id in b && a[id] == b[id]
  }

  /** The databases agree on the org's links with their rules, its prefixes and
      its domains; other orgs' rows are arbitrary. */
  ghost predicate AgreeOn(a: Db, b: Db, orgId: int) {
    SameLinks(a.links, b.links, orgId) && SamePrefixes(a.prefixes, b.prefixes, orgId) &&
    SameDomains(a.domains, b.domains, orgId)
  }

  /** The request comes through the org's verified domain or approved prefix. */
  ghost predicate ScopedTo(c: Config, db: Db, req: Request, orgId: int) {
    var scope := ScopeOf(c, db, req.prefix, req.visitor.host);
    scope.Ok? && scope.value.orgId == orgId != 0
  }

  lemma HostTransfers(c: Config, a: Db, b: Db, host: string, orgId: int)
    requires Keys(b) && AgreeOn(a, b, orgId) && orgId != 0 && HostScope(c, a, host) == Ok(orgId)
    ensures HostScope(c, b, host) == Ok(orgId)
  {
    var h := NormalizeHost(host);
    var d := DomainByHostname(a.domains, h);
    assert OwnedDomain(a.domains, orgId, d.value);
    assert HasHostname(b.domains, d.value, h);
  }

  lemma ScopeTransfers(c: Config, a: Db, b: Db, req: Request, orgId: int)
    requires Inv(c, a) && Inv(c, b) && AgreeOn(a, b, orgId) && ScopedTo(c, a, req, orgId)
    ensures ScopeOf(c, b, req.prefix, req.visitor.host) == ScopeOf(c, a, req.prefix, req.visitor.host)
  {
    var host := req.visitor.host;
    if req.prefix == "" {
      HostTransfers(c, a, b, host, orgId);
    } else {
      var d := DomainByHostname(a.domains, NormalizeHost(host));
      assert d.Some? ==> DomainNamed(c, a.domains[d.value]);
      assert IsDeploymentHost(host, c.shortDomain);
      var p := PrefixByValue(a.prefixes, req.prefix);
      assert OwnedPrefix(a.prefixes, orgId, p.value);
      assert HasPrefix(b.prefixes, p.value, req.prefix);
    }
  }

  /** An existing code of another org and an unknown code are told apart by
      nothing: both databases find the same link of the org, or none. */
  lemma ReachedTransfers(c: Config, a: Db, b: Db, req: Request, orgId: int)
    requires Inv(c, a) && Inv(c, b) && AgreeOn(a, b, orgId) && ScopedTo(c, a, req, orgId)
    ensures Reached(c, a, req) == Reached(c, b, req)
    ensures Reached(c, a, req).Ok? ==>
      OwnedLink(a.links, orgId, Reached(c, a, req).value.id) &&
      OwnedLink(b.links, orgId, Reached(c, a, req).value.id)
  {
    ScopeTransfers(c, a, b, req, orgId);
    var x, y := LinkByCode(a.links, req.code), LinkByCode(b.links, req.code);
    if x.Some? && OwnedLink(a.links, orgId, x.value) {
      assert HasCode(b.links, x.value, req.code);
    } else if y.Some? && OwnedLink(b.links, orgId, y.value) {
      assert HasCode(a.links, y.value, req.code);
    }
  }

  /** The clicks a step appends. */
  function NewClicks(before: Db, after: Db): seq<Click> {
    if |before.clicks| <= |after.clicks| then after.clicks[|before.clicks|..] else []
  }

  lemma RecordedTransfers(c: Config, a: Db, b: Db, req: Request, f: Found, orgId: int)
    requires AgreeOn(a, b, orgId) && OwnedLink(a.links, orgId, f.id) && OwnedLink(b.links, orgId, f.id)
    ensures
      var a', b' := Recorded(c, a, req, f), Recorded(c, b, req, f);
      AgreeOn(a', b', orgId) && NewClicks(a, a') == NewClicks(b, b')
  {
    var x, y := Recorded(c, a, req, f), Recorded(c, b, req, f);
    assert a.links[f.id] == b.links[f.id];
    assert ClickFor(c, a, req, f) == ClickFor(c, b, req, f);
    forall id | OwnedLink(x.links, orgId, id) || OwnedLink(y.links, orgId, id)
      ensures id in x.links && id in y.links && x.links[id] == y.links[id]
    {
      assert OwnedLink(a.links, orgId, id) || OwnedLink(b.links, orgId, id);
    }
    if !req.clickFails {
      var click := ClickFor(c, a, req, f);
      assert x.clicks == a.clicks + [click] && y.clicks == b.clicks + [click];
      assert (a.clicks + [click])[|a.clicks|..] == [click] == (b.clicks + [click])[|b.clicks|..];
    }
  }

  lemma ServedTransfers(c: Config, a: Db, b: Db, req: Request, f: Found, orgId: int)
    requires AgreeOn(a, b, orgId) && OwnedLink(a.links, orgId, f.id) && OwnedLink(b.links, orgId, f.id)
    ensures
      var (a', ra) := Served(c, a, req, f);
      var (b', rb) := Served(c, b, req, f);
      ra == rb && AgreeOn(a', b', orgId) && NewClicks(a, a') == NewClicks(b, b')
  {
    assert a.links[f.id] == b.links[f.id];
    if Unavailable(a.links[f.id], req.now).None? {
      RecordedTransfers(c, a, b, req, f, orgId);
    }
  }

  /** Non-interference: in any two states that agree on an org's rows, a request
      through that org's domain or prefix gets the same answer, leaves the same
      throttle and records the same clicks, and the states still agree, however
      the links, prefixes and domains of other orgs differ. */
  lemma ScopedRequestsIsolated(c: Config, gc: GuardConfig, a: World, b: World, req: Request, orgId: int)
    requires Inv(c, a.db) && Inv(c, b.db) && a.guard == b.guard
    requires AgreeOn(a.db, b.db, orgId) && ScopedTo(c, a.db, req, orgId)
    ensures
      var (a', ra) := Resolve(c, gc, a, req);
      var (b', rb) := Resolve(c, gc, b, req);
      ra == rb && a'.guard == b'.guard && NewClicks(a.db, a'.db) == NewClicks(b.db, b'.db) &&
      AgreeOn(a'.db, b'.db, orgId)
  {
    ReachedTransfers(c, a.db, b.db, req, orgId);
    if LookupLink(c, gc, a, req).1.Ok? {
      ServedTransfers(c, a.db, b.db, req, Reached(c, a.db, req).value, orgId);
    }
  }

  lemma ScopedPreviewsIsolated(c: Config, gc: GuardConfig, a: World, b: World, req: Request, orgId: int)
    requires Inv(c, a.db) && Inv(c, b.db) && a.guard == b.guard
    requires AgreeOn(a.db, b.db, orgId) && ScopedTo(c, a.db, req, orgId)
    ensures PreviewLink(c, gc, a, req).1 == PreviewLink(c, gc, b, req).1
    ensures PreviewLink(c, gc, a, req).0.guard == PreviewLink(c, gc, b, req).0.guard
    ensures PreviewLink(c, gc, a, req).0.db == a.db && PreviewLink(c, gc, b, req).0.db == b.db
  {
    ReachedTransfers(c, a.db, b.db, req, orgId);
  }

  /** The other direction: such a request leaves every row of other orgs alone,
      and only ever records clicks of its own org. */
  lemma ScopedRequestsStayHome(c: Config, gc: GuardConfig, w: World, req: Request, orgId: int, other: int)
    requires Inv(c, w.db) && ScopedTo(c, w.db, req, orgId) && other != orgId
    ensures
      var w' := Resolve(c, gc, w, req).0;
      AgreeOn(w.db, w'.db, other) && forall k :: k in NewClicks(w.db, w'.db) ==> k.orgId == orgId
  {
    ReachedTransfers(c, w.db, w.db, req, orgId);
    var w' := Resolve(c, gc, w, req).0;
    if LookupLink(c, gc, w, req).1.Ok? {
      HomeRecorded(c, w.db, req, Reached(c, w.db, req).value, orgId, other);
    }
  }

  lemma HomeRecorded(c: Config, db: Db, req: Request, f: Found, orgId: int, other: int)
    requires OwnedLink(db.links, orgId, f.id) && other != orgId
    ensures
      var db' := Served(c, db, req, f).0;
      AgreeOn(db, db', other) && forall k :: k in NewClicks(db, db') ==> k.orgId == orgId
  {
    var click := ClickFor(c, db, req, f);
    assert (db.clicks + [click])[|db.clicks|..] == [click];
  }
}
