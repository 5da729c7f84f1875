/** The shared tables, what each SQL statement or transaction does to them, and
    the facts that hold whatever statements arrive in whatever order. */
module Tables {
  import opened Common

  datatype LinkType = Public | Private

  datatype LinkStatus = Active | DisabledAbuse

  datatype Utms = Utms(source: string, medium: string, campaign: string)

  datatype Condition = Condition(isNot: bool, values: seq<string>)

  datatype Rule = Rule(deviceType: Option<Condition>, location: Option<Condition>, url: string)

  datatype Android = Android(intent: string, package: string, scheme: string, fallback: string)

  datatype Deeplink = Deeplink(android: Option<Android>, ios: Option<string>)

  /** The owner-set part of a link: everything its owners may edit in place.
      A link's rules are listed in creation order. */
  datatype LinkConfig = LinkConfig(
    destination: string, utms: Utms, deeplink: Option<Deeplink>, rules: seq<Rule>,
    activatesAt: Option<int>, expiresAt: Option<int>)

  /** A row of links; creator is None for a link made with an API key. */
  datatype Link = Link(
    orgId: int, creator: Option<int>, code: string, kind: LinkType, status: LinkStatus,
    config: LinkConfig, visits: nat, lastVisitAt: Option<int>)

  datatype PrefixStatus = Pending | Approved | Rejected | Revoked

  datatype BrandPrefix = BrandPrefix(orgId: int, prefix: string, status: PrefixStatus, primary: bool)

  datatype DomainStatus = Unverified | Verified | Disabled

  datatype Domain = Domain(orgId: int, hostname: string, token: string, status: DomainStatus, primary: bool)

  datatype EntryPoint = RootEntry | PrefixEntry | DomainEntry

  /** The visitor as the request shows it. */
  datatype Visitor = Visitor(
    ip: string, host: string, deviceType: string, mobileOS: string, browser: string,
    referrer: string, referrerHost: string)

  datatype Click = Click(
    orgId: int, linkId: int, utms: Utms, visitor: Visitor, city: string, isDeeplink: bool,
    targetMatched: bool, tag: string, entryPoint: EntryPoint, prefixId: int)

  /** The tables, keyed by id, with their auto-increment counters. */
  datatype Db = Db(
    links: map<int, Link>, nextLink: int,
    prefixes: map<int, BrandPrefix>, nextPrefix: int,
    domains: map<int, Domain>, nextDomain: int,
    clicks: seq<Click>)

  const EMPTY := Db(map[], 1, map[], 1, map[], 1, [])

  // ----------------------------------------------------------------- queries

  predicate HasCode(links: map<int, Link>, id: int, code: string) {
    id in links && EqualFold(links[id].code, code)
  }

  ghost predicate CodeExists(links: map<int, Link>, code: string) {
    exists id :: HasCode(links, id, code)
  }

  ghost function LinkByCode(links: map<int, Link>, code: string): (r: Option<int>)
    ensures r.Some? ==> HasCode(links, r.value, code)
    ensures r.None? <==> !CodeExists(links, code)
  {
    if CodeExists(links, code) then
      var id :| HasCode(links, id, code);
      Some(id)
    else None
  }

  predicate HasPrefix(prefixes: map<int, BrandPrefix>, id: int, value: string) {
    id in prefixes && EqualFold(prefixes[id].prefix, value)
  }

  ghost function PrefixByValue(prefixes: map<int, BrandPrefix>, value: string): (r: Option<int>)
    ensures r.Some? ==> HasPrefix(prefixes, r.value, value)
    ensures r.None? <==> forall id :: !HasPrefix(prefixes, id, value)
  {
    if exists id :: HasPrefix(prefixes, id, value) then
      var id :| HasPrefix(prefixes, id, value);
      Some(id)
    else None
  }

  /** PENDING, APPROVED and REVOKED hold a value; REJECTED holds nothing. */
  predicate Held(p: BrandPrefix) { p.status != Rejected }

  ghost predicate IsHeld(prefixes: map<int, BrandPrefix>, value: string) {
    exists id :: HasPrefix(prefixes, id, value) && Held(prefixes[id])
  }

  function HeldBy(prefixes: map<int, BrandPrefix>, orgId: int): set<int> {
    set id | id in prefixes && prefixes[id].orgId == orgId && Held(prefixes[id])
  }

  predicate IsPrimaryPrefix(prefixes: map<int, BrandPrefix>, id: int, orgId: int) {
    id in prefixes && prefixes[id].orgId == orgId && prefixes[id].primary && prefixes[id].status == Approved
  }

  ghost function PrimaryPrefix(prefixes: map<int, BrandPrefix>, orgId: int): (r: Option<int>)
    ensures r.Some? ==> IsPrimaryPrefix(prefixes, r.value, orgId)
    ensures r.None? <==> forall id :: !IsPrimaryPrefix(prefixes, id, orgId)
  {
    if exists id :: IsPrimaryPrefix(prefixes, id, orgId) then
      var id :| IsPrimaryPrefix(prefixes, id, orgId);
      Some(id)
    else None
  }

  predicate HasHostname(domains: map<int, Domain>, id: int, hostname: string) {
    id in domains && EqualFold(domains[id].hostname, hostname)
  }

  ghost function DomainByHostname(domains: map<int, Domain>, hostname: string): (r: Option<int>)
    ensures r.Some? ==> HasHostname(domains, r.value, hostname)
    ensures r.None? <==> forall id :: !HasHostname(domains, id, hostname)
  {
    if exists id :: HasHostname(domains, id, hostname) then
      var id :| HasHostname(domains, id, hostname);
      Some(id)
    else None
  }

  ghost predicate HasVerified(domains: map<int, Domain>, orgId: int) {
    exists id :: id in domains && domains[id].orgId == orgId && domains[id].status == Verified
  }

  predicate IsPrimaryDomain(domains: map<int, Domain>, id: int, orgId: int) {
    id in domains && domains[id].orgId == orgId && domains[id].primary && domains[id].status == Verified
  }

  ghost function PrimaryDomain(domains: map<int, Domain>, orgId: int): (r: Option<int>)
    ensures r.Some? ==> IsPrimaryDomain(domains, r.value, orgId)
    ensures r.None? <==> forall id :: !IsPrimaryDomain(domains, id, orgId)
  {
    if exists id :: IsPrimaryDomain(domains, id, orgId) then
      var id :| IsPrimaryDomain(domains, id, orgId);
      Some(id)
    else None
  }

  // -------------------------------------------------------------- statements

  /** The operator's three transitions, with the status each demands. */
  datatype Decision = Approve | Reject | Revoke

  function From(d: Decision): PrefixStatus {
    if d.Revoke? then Approved else Pending
  }

  function To(d: Decision): PrefixStatus {
    match d
    case Approve => Approved
    case Reject => Rejected
    case Revoke => Revoked
  }

  /** One SQL statement, or one transaction, of the stores. */
  datatype Stmt =
    | InsertLink(link: Link)
    | UpdateCode(orgId: int, id: int, code: string)
    | UpdateConfig(orgId: int, id: int, config: LinkConfig)
    | SetStatus(id: int, status: LinkStatus)
    | RecordVisit(id: int, now: int)
    | InsertClick(click: Click)
    | InsertPrefix(orgId: int, value: string, approved: bool)
    | SetPrimaryPrefix(orgId: int, id: int)
    | DecidePrefix(id: int, decision: Decision)
    | DeletePrefix(orgId: int, id: int)
    | ReleasePrefix(id: int)
    | InsertDomain(orgId: int, hostname: string, token: string)
    | SetVerified(orgId: int, id: int)
    | SetPrimaryDomain(orgId: int, id: int)
    | DeleteDomain(orgId: int, id: int)

  predicate OwnedLink(links: map<int, Link>, orgId: int, id: int) {
    id in links && links[id].orgId == orgId
  }

  /** The table without the rejected rows of a value. */
  function WithoutRejected(prefixes: map<int, BrandPrefix>, value: string): map<int, BrandPrefix> {
    map id | id in prefixes && !(EqualFold(prefixes[id].prefix, value) && !Held(prefixes[id])) :: prefixes[id]
  }

  function PrefixSwap(prefixes: map<int, BrandPrefix>, orgId: int, chosen: int): map<int, BrandPrefix> {
    map id | id in prefixes ::
      if prefixes[id].orgId == orgId then prefixes[id].(primary := id == chosen) else prefixes[id]
  }

  function DomainSwap(domains: map<int, Domain>, orgId: int, chosen: int): map<int, Domain> {
    map id | id in domains ::
      if domains[id].orgId == orgId then domains[id].(primary := id == chosen) else domains[id]
  }

  /** The prefix statements: the new table, its counter, and whether the
      statement took effect (rows affected, or no duplicate key). */
  ghost function ExecPrefix(prefixes: map<int, BrandPrefix>, next: int, s: Stmt): (map<int, BrandPrefix>, int, bool) {
    match s
    case InsertPrefix(orgId, value, approved) =>
      if IsHeld(prefixes, value) then (prefixes, next, false)
      else
        var p := BrandPrefix(orgId, value, if approved then Approved else Pending, false);
        (WithoutRejected(prefixes, value)[next := p], next + 1, true)
    case SetPrimaryPrefix(orgId, id) =>
      if id in prefixes && prefixes[id].orgId == orgId && prefixes[id].status == Approved
      then (PrefixSwap(prefixes, orgId, id), next, true)
      else (prefixes, next, false)
    case DecidePrefix(id, d) =>
      if id in prefixes && prefixes[id].status == From(d)
      then (prefixes[id := prefixes[id].(status := To(d), primary := false)], next, true)
      else (prefixes, next, false)
    case DeletePrefix(orgId, id) =>
      if id in prefixes && prefixes[id].orgId == orgId && prefixes[id].status != Revoked
      then (prefixes - {id}, next, true)
      else (prefixes, next, false)
    case ReleasePrefix(id) =>
      if id in prefixes && prefixes[id].status == Revoked
      then (prefixes - {id}, next, true)
      else (prefixes, next, false)
    case _ => (prefixes, next, true)
  }

  ghost function ExecDomain(domains: map<int, Domain>, next: int, s: Stmt): (map<int, Domain>, int, bool) {
    match s
    case InsertDomain(orgId, hostname, token) =>
      if DomainByHostname(domains, hostname).Some? then (domains, next, false)
      else (domains[next := Domain(orgId, hostname, token, Unverified, false)], next + 1, true)
    case SetVerified(orgId, id) =>
      if id in domains && domains[id].orgId == orgId
      then (domains[id := domains[id].(status := Verified)], next, true)
      else (domains, next, true)
    case SetPrimaryDomain(orgId, id) =>
      if id in domains && domains[id].orgId == orgId && domains[id].status == Verified
      then (DomainSwap(domains, orgId, id), next, true)
      else (domains, next, false)
    case DeleteDomain(orgId, id) =>
      if id in domains && domains[id].orgId == orgId then (domains - {id}, next, true) else (domains, next, false)
    case _ => (domains, next, true)
  }

  ghost function ExecLink(links: map<int, Link>, next: int, s: Stmt): (map<int, Link>, int, bool) {
    match s
    case InsertLink(link) =>
      if CodeExists(links, link.code) then (links, next, false)
      else (links[next := link.(status := Active, visits := 0, lastVisitAt := None)], next + 1, true)
    case UpdateCode(orgId, id, code) =>
      if !OwnedLink(links, orgId, id) then (links, next, true)
      else if exists other :: other != id && HasCode(links, other, code) then (links, next, false)
      else (links[id := links[id].(code := code)], next, true)
    case UpdateConfig(orgId, id, config) =>
      if OwnedLink(links, orgId, id) then (links[id := links[id].(config := config)], next, true)
      else (links, next, true)
    case SetStatus(id, status) =>
      if id in links then (links[id := links[id].(status := status)], next, true) else (links, next, true)
    case RecordVisit(id, now) =>
      if id in links
      then (links[id := links[id].(visits := links[id].visits + 1, lastVisitAt := Some(now))], next, true)
      else (links, next, true)
    case _ => (links, next, true)
  }

  predicate OfLinks(s: Stmt) {
    s.InsertLink? || s.UpdateCode? || s.UpdateConfig? || s.SetStatus? || s.RecordVisit?
  }

  predicate OfPrefixes(s: Stmt) {
    s.InsertPrefix? || s.SetPrimaryPrefix? || s.DecidePrefix? || s.DeletePrefix? || s.ReleasePrefix?
  }

  /** The effect of a statement on the database, and whether it took effect. */
  ghost function Exec(db: Db, s: Stmt): (Db, bool) {
    if OfLinks(s) then OnLinks(db, s)
    else if OfPrefixes(s) then OnPrefixes(db, s)
    else if !s.InsertClick? then OnDomains(db, s)
    else if s.click.linkId in db.links then (db.(clicks := db.clicks + [s.click]), true)
    else (db, false)
  }

  ghost function OnLinks(db: Db, s: Stmt): (Db, bool) {
    var (links, next, ok) := ExecLink(db.links, db.nextLink, s);
    (db.(links := links, nextLink := next), ok)
  }

  ghost function OnPrefixes(db: Db, s: Stmt): (Db, bool) {
    var (prefixes, next, ok) := ExecPrefix(db.prefixes, db.nextPrefix, s);
    (db.(prefixes := prefixes, nextPrefix := next), ok)
  }

  ghost function OnDomains(db: Db, s: Stmt): (Db, bool) {
    var (domains, next, ok) := ExecDomain(db.domains, db.nextDomain, s);
    (db.(domains := domains, nextDomain := next), ok)
  }

  // -------------------------------------------------- facts of the statements

  ghost predicate LinkKeys(links: map<int, Link>, next: int) {
    && (forall id :: id in links ==> 1 <= id < next)
    && (forall a, b, code :: HasCode(links, a, code) && HasCode(links, b, code) ==> a == b)
    && 1 <= next
  }

  ghost predicate PrefixKeys(prefixes: map<int, BrandPrefix>, next: int) {
    && (forall id :: id in prefixes ==> 1 <= id < next)
    && (forall a, b, value :: HasPrefix(prefixes, a, value) && HasPrefix(prefixes, b, value) ==> a == b)
    && (forall id :: id in prefixes && prefixes[id].primary ==> prefixes[id].status == Approved)
    && (forall a, b, orgId :: IsPrimaryPrefix(prefixes, a, orgId) && IsPrimaryPrefix(prefixes, b, orgId) ==> a == b)
    && 1 <= next
  }

  ghost predicate DomainKeys(domains: map<int, Domain>, next: int) {
    && (forall id :: id in domains ==> 1 <= id < next)
    && (forall a, b, h :: HasHostname(domains, a, h) && HasHostname(domains, b, h) ==> a == b)
    && (forall id :: id in domains && domains[id].primary ==> domains[id].status == Verified)
    && (forall a, b, orgId :: IsPrimaryDomain(domains, a, orgId) && IsPrimaryDomain(domains, b, orgId) ==> a == b)
    && 1 <= next
  }

  /** Unique keys up to case, one primary per org, and a primary prefix or
      domain is always approved or verified. */
  ghost predicate Keys(db: Db) {
    && LinkKeys(db.links, db.nextLink)
    && PrefixKeys(db.prefixes, db.nextPrefix)
    && DomainKeys(db.domains, db.nextDomain)
  }

  lemma ExecLinkKeys(links: map<int, Link>, next: int, s: Stmt)
    requires LinkKeys(links, next)
    ensures LinkKeys(ExecLink(links, next, s).0, ExecLink(links, next, s).1)
  {
    var (links', next', _) := ExecLink(links, next, s);
    forall a, b, code | HasCode(links', a, code) && HasCode(links', b, code) ensures a == b {
      match s {
        case InsertLink(link) =>
          assert a != next ==> HasCode(links, a, code);
          assert b != next ==> HasCode(links, b, code);
          assert a != next ==> (HasCode(links, a, link.code) <==> EqualFold(links[a].code, link.code));
          assert b != next ==> (HasCode(links, b, link.code) <==> EqualFold(links[b].code, link.code));
        case UpdateCode(_, id, renamed) =>
          assert a != id ==> HasCode(links, a, code);
          assert a != id ==> (HasCode(links, a, renamed) <==> EqualFold(links[a].code, renamed));
          assert b != id ==> HasCode(links, b, code);
          assert b != id ==> (HasCode(links, b, renamed) <==> EqualFold(links[b].code, renamed));
        case _ =>
          assert HasCode(links, a, code) && HasCode(links, b, code);
      }
    }
  }

  lemma ExecPrefixKeys(prefixes: map<int, BrandPrefix>, next: int, s: Stmt)
    requires PrefixKeys(prefixes, next)
    ensures PrefixKeys(ExecPrefix(prefixes, next, s).0, ExecPrefix(prefixes, next, s).1)
  {
    var (prefixes', next', _) := ExecPrefix(prefixes, next, s);
    forall a, b, value | HasPrefix(prefixes', a, value) && HasPrefix(prefixes', b, value) ensures a == b {
      if s.InsertPrefix? && prefixes' != prefixes {
        assert a != next ==> HasPrefix(prefixes, a, value);
        assert b != next ==> HasPrefix(prefixes, b, value);
        assert forall id :: HasPrefix(prefixes, id, s.value) ==> !Held(prefixes[id]);
      } else {
        assert HasPrefix(prefixes, a, value) && HasPrefix(prefixes, b, value);
      }
    }
    forall a, b, orgId | IsPrimaryPrefix(prefixes', a, orgId) && IsPrimaryPrefix(prefixes', b, orgId) ensures a == b {
      if !(s.SetPrimaryPrefix? && s.orgId == orgId && prefixes' != prefixes) {
        assert IsPrimaryPrefix(prefixes, a, orgId) && IsPrimaryPrefix(prefixes, b, orgId);
      }
    }
  }

  lemma ExecDomainKeys(domains: map<int, Domain>, next: int, s: Stmt)
    requires DomainKeys(domains, next)
    ensures DomainKeys(ExecDomain(domains, next, s).0, ExecDomain(domains, next, s).1)
  {
    var (domains', next', _) := ExecDomain(domains, next, s);
    forall a, b, h | HasHostname(domains', a, h) && HasHostname(domains', b, h) ensures a == b {
      if s.InsertDomain? && domains' != domains {
        assert a != next ==> HasHostname(domains, a, h);
        assert b != next ==> HasHostname(domains, b, h);
        assert a != next ==> (HasHostname(domains, a, s.hostname) <==> EqualFold(domains[a].hostname, s.hostname));
        assert b != next ==> (HasHostname(domains, b, s.hostname) <==> EqualFold(domains[b].hostname, s.hostname));
      } else {
        assert HasHostname(domains, a, h) && HasHostname(domains, b, h);
      }
    }
    forall a, b, orgId | IsPrimaryDomain(domains', a, orgId) && IsPrimaryDomain(domains', b, orgId) ensures a == b {
      if !(s.SetPrimaryDomain? && s.orgId == orgId && domains' != domains) {
        assert IsPrimaryDomain(domains, a, orgId) && IsPrimaryDomain(domains, b, orgId);
      }
    }
  }

  /** Every statement keeps the keys, whatever it was based on. */
  lemma ExecKeys(db: Db, s: Stmt)
    requires Keys(db)
    ensures Keys(Exec(db, s).0)
  {
    ExecLinkKeys(db.links, db.nextLink, s);
    ExecPrefixKeys(db.prefixes, db.nextPrefix, s);
    ExecDomainKeys(db.domains, db.nextDomain, s);
  }

  // ---------------------------------------------------------- the store class

  class Database {
    var links: map<int, Link>
    var nextLink: int
    var prefixes: map<int, BrandPrefix>
    var nextPrefix: int
    var domains: map<int, Domain>
    var nextDomain: int
    var clicks: seq<Click>

    ghost function View(): Db
      reads this
    {
      Db(links, nextLink, prefixes, nextPrefix, domains, nextDomain, clicks)
    }

    ghost predicate Valid()
      reads this
    {
      Keys(View())
    }

    constructor ()
      ensures View() == EMPTY && Valid()
    {
      links, nextLink, prefixes, nextPrefix := map[], 1, map[], 1;
      domains, nextDomain, clicks := map[], 1, [];
    }

    method FindLink(code: string) returns (r: Option<int>)
      requires Valid()
      ensures r == LinkByCode(links, code)
    {
      if id :| id in links && HasCode(links, id, code) {
        return Some(id);
      }
      return None;
    }

    method FindPrefix(value: string) returns (r: Option<int>)
      requires Valid()
      ensures r == PrefixByValue(prefixes, value)
    {
      if id :| id in prefixes && HasPrefix(prefixes, id, value) {
        return Some(id);
      }
      return None;
    }

    method IsHeldPrefix(value: string) returns (held: bool)
      requires Valid()
      ensures held <==> IsHeld(prefixes, value)
    {
      var p := FindPrefix(value);
      held := p.Some? && Held(prefixes[p.value]);
    }

    method FindDomain(hostname: string) returns (r: Option<int>)
      requires Valid()
      ensures r == DomainByHostname(domains, hostname)
    {
      if id :| id in domains && HasHostname(domains, id, hostname) {
        return Some(id);
      }
      return None;
    }

    method PrimaryPrefixOf(orgId: int) returns (r: Option<int>)
      requires Valid()
      ensures r == PrimaryPrefix(prefixes, orgId)
    {
      if id :| id in prefixes && IsPrimaryPrefix(prefixes, id, orgId) {
        return Some(id);
      }
      return None;
    }

    method PrimaryDomainOf(orgId: int) returns (r: Option<int>)
      requires Valid()
      ensures r == PrimaryDomain(domains, orgId)
    {
      if id :| id in domains && IsPrimaryDomain(domains, id, orgId) {
        return Some(id);
      }
      return None;
    }

    method HasVerifiedDomain(orgId: int) returns (r: bool)
      ensures r <==> HasVerified(domains, orgId)
    {
      r := exists id :: id in domains && domains[id].orgId == orgId && domains[id].status == Verified;
    }

    /** Runs one statement or transaction. */
    method Run(s: Stmt) returns (ok: bool)
      requires Valid()
      modifies this
      ensures Valid()
      ensures (View(), ok) == Exec(old(View()), s)
    {
      ExecKeys(View(), s);
      if OfLinks(s) {
        ok := RunLink(s);
      } else if OfPrefixes(s) {
        ok := RunPrefix(s);
      } else if !s.InsertClick? {
        ok := RunDomain(s);
      } else {
        ok := s.click.linkId in links;
        if ok { clicks := clicks + [s.click]; }
      }
    }

    method RunLink(s: Stmt) returns (ok: bool)
      requires Valid()
      modifies this`links, this`nextLink
      ensures (links, nextLink, ok) == ExecLink(old(links), old(nextLink), s)
    {
      match s {
        case InsertLink(link) =>
          var taken := FindLink(link.code);
          if taken.Some? { return false; }
          links := links[nextLink := link.(status := Active, visits := 0, lastVisitAt := None)];
          nextLink := nextLink + 1;
        case UpdateCode(orgId, id, code) =>
          if OwnedLink(links, orgId, id) {
            if other :| other in links && other != id && HasCode(links, other, code) { return false; }
            links := links[id := links[id].(code := code)];
          }
        case UpdateConfig(orgId, id, config) =>
          if OwnedLink(links, orgId, id) {
            links := links[id := links[id].(config := config)];
          }
        case SetStatus(id, status) =>
          if id in links {
            links := links[id := links[id].(status := status)];
          }
        case RecordVisit(id, now) =>
          if id in links {
            links := links[id := links[id].(visits := links[id].visits + 1, lastVisitAt := Some(now))];
          }
        case _ =>
      }
      return true;
    }

    method RunPrefix(s: Stmt) returns (ok: bool)
      requires Valid()
      modifies this`prefixes, this`nextPrefix
      ensures (prefixes, nextPrefix, ok) == ExecPrefix(old(prefixes), old(nextPrefix), s)
    {
      match s {
        case InsertPrefix(orgId, value, approved) =>
          var held := IsHeldPrefix(value);
          if held { return false; }
          prefixes := WithoutRejected(prefixes, value);
          prefixes := prefixes[nextPrefix := BrandPrefix(orgId, value, if approved then Approved else Pending, false)];
          nextPrefix := nextPrefix + 1;
        case SetPrimaryPrefix(orgId, id) =>
          if id !in prefixes || prefixes[id].orgId != orgId || prefixes[id].status != Approved { return false; }
          prefixes := PrefixSwap(prefixes, orgId, id);
        case DecidePrefix(id, d) =>
          if id !in prefixes || prefixes[id].status != From(d) { return false; }
          prefixes := prefixes[id := prefixes[id].(status := To(d), primary := false)];
        case DeletePrefix(orgId, id) =>
          if id !in prefixes || prefixes[id].orgId != orgId || prefixes[id].status == Revoked { return false; }
          prefixes := prefixes - {id};
        case ReleasePrefix(id) =>
          if id !in prefixes || prefixes[id].status != Revoked { return false; }
          prefixes := prefixes - {id};
        case _ =>
      }
      return true;
    }

    method RunDomain(s: Stmt) returns (ok: bool)
      requires Valid()
      modifies this`domains, this`nextDomain
      ensures (domains, nextDomain, ok) == ExecDomain(old(domains), old(nextDomain), s)
    {
      match s {
        case InsertDomain(orgId, hostname, token) =>
          var taken := FindDomain(hostname);
          if taken.Some? { return false; }
          domains := domains[nextDomain := Domain(orgId, hostname, token, Unverified, false)];
          nextDomain := nextDomain + 1;
        case SetVerified(orgId, id) =>
          if id in domains && domains[id].orgId == orgId {
            domains := domains[id := domains[id].(status := Verified)];
          }
        case SetPrimaryDomain(orgId, id) =>
          if id !in domains || domains[id].orgId != orgId || domains[id].status != Verified { return false; }
          domains := DomainSwap(domains, orgId, id);
        case DeleteDomain(orgId, id) =>
          if id !in domains || domains[id].orgId != orgId { return false; }
          domains := domains - {id};
        case _ =>
      }
      return true;
    }
  }
}
