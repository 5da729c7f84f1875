/** The namespace shared by short codes, brand prefixes and hostnames, over runs
    of atomic service calls. */
module Namespace {
  import opened Common
  import opened Tables
  import opened Reserved
  import opened Urls
  import opened Hosts
  import opened Services
  import opened Links
  import opened Prefixes
  import opened Domains
  import RandomCode

  /** A service call with its arguments and what the outside answers it. */
  datatype Call =
    | Shortening(orgId: int, creator: Option<int>, input: ShortenInput, outside: Outside)
    | Aliasing(orgId: int, viewer: int, id: int, alias: string, lookupFails: bool)
    | Editing(orgId: int, id: int, config: LinkConfig)
    | StatusSetting(id: int, status: LinkStatus)
    | PrefixRequest(orgId: int, isOwner: bool, prefixInput: PrefixInput)
    | PrefixPrimary(orgId: int, isOwner: bool, id: int)
    | PrefixDeletion(orgId: int, isOwner: bool, id: int)
    | PrefixDecision(id: int, decision: Decision, reason: string)
    | PrefixRelease(id: int)
    | DomainRequest(orgId: int, isOwner: bool, hostname: string, policy: Policy, token: Option<string>)
    | DomainCheck(orgId: int, isOwner: bool, id: int, txt: Option<seq<string>>)
    | DomainPrimary(orgId: int, isOwner: bool, id: int)
    | DomainDeletion(orgId: int, isOwner: bool, id: int)

  ghost function PlanOf(c: Config, db: Db, call: Call): Plan {
    match call
    case Shortening(orgId, creator, input, o) => PlanShorten(c, db, orgId, creator, input, o)
    case Aliasing(orgId, viewer, id, alias, fails) => PlanSetAlias(c, db, orgId, viewer, id, alias, fails)
    case Editing(orgId, id, config) => Write(UpdateConfig(orgId, id, config), Internal)
    case StatusSetting(id, status) => Write(SetStatus(id, status), Internal)
    case PrefixRequest(orgId, isOwner, input) => PlanCreatePrefix(c, db, orgId, isOwner, input)
    case PrefixPrimary(orgId, isOwner, id) => PlanSetPrimaryPrefix(db, orgId, isOwner, id)
    case PrefixDeletion(orgId, isOwner, id) => PlanDeletePrefix(db, orgId, isOwner, id)
    case PrefixDecision(id, d, reason) => PlanDecide(db, id, d, reason)
    case PrefixRelease(id) => PlanRelease(db, id)
    case DomainRequest(orgId, isOwner, h, policy, token) => PlanCreateDomain(c, db, orgId, isOwner, h, policy, token)
    case DomainCheck(orgId, isOwner, id, txt) => PlanVerify(c, db, orgId, isOwner, id, txt)
    case DomainPrimary(orgId, isOwner, id) => PlanSetPrimaryDomain(db, orgId, isOwner, id)
    case DomainDeletion(orgId, isOwner, id) => PlanDeleteDomain(orgId, isOwner, id)
  }

  /** Ids come from the session, so orgs and creators are positive; drawn codes
      come from the generator. */
  ghost predicate Genuine(call: Call) {
    match call
    case Shortening(orgId, creator, _, o) =>
      orgId >= 1 && (creator.Some? ==> creator.value >= 1) &&
      forall i :: 0 <= i < |o.draws| ==> o.draws[i] != "" && RandomCode.IsBase62(o.draws[i])
    case PrefixRequest(orgId, _, _) => orgId >= 1
    case DomainRequest(orgId, _, _, _, _) => orgId >= 1
    case _ => true
  }

  // ----------------------------------------------------------------- invariant

  ghost predicate LinkNamed(c: Config, link: Link) {
    link.orgId >= 1 && IsCode(link.code) && !IsReserved(c.reserved, link.code, true) &&
    (link.kind == Private ==> link.creator.Some?)
  }

  ghost predicate PrefixNamed(c: Config, p: BrandPrefix) {
    p.orgId >= 1 && IsPrefixText(p.prefix) && !IsReserved(c.reserved, p.prefix, false)
  }

  ghost predicate DomainNamed(c: Config, d: Domain) {
    d.orgId >= 1 && ValidHostname(d.hostname, c.shortDomain)
  }

  /** No code is a held prefix, up to case. */
  ghost predicate Apart(links: map<int, Link>, prefixes: map<int, BrandPrefix>) {
    forall l, p :: l in links && p in prefixes && Held(prefixes[p]) ==> !EqualFold(links[l].code, prefixes[p].prefix)
  }

  ghost predicate Named(c: Config, db: Db) {
    && (forall id :: id in db.links ==> LinkNamed(c, db.links[id]))
    && (forall id :: id in db.prefixes ==> PrefixNamed(c, db.prefixes[id]))
    && (forall id :: id in db.domains ==> DomainNamed(c, db.domains[id]))
    && Apart(db.links, db.prefixes)
  }

  ghost predicate Capped(prefixes: map<int, BrandPrefix>) {
    forall orgId :: |HeldBy(prefixes, orgId)| <= MAX_PREFIXES_PER_ORG
  }

  ghost predicate Inv(c: Config, db: Db) {
    Keys(db) && Named(c, db) && Capped(db.prefixes)
  }

  // ------------------------------------------------------- what a plan ensures

  /** What the checks of an atomic call guarantee about the statement it runs. */
  ghost predicate Checked(c: Config, db: Db, s: Stmt) {
    match s
    case InsertLink(link) => LinkNamed(c, link) && !CodeExists(db.links, link.code) && !IsHeld(db.prefixes, link.code)
    case UpdateCode(_, _, code) =>
      IsCode(code) && !IsReserved(c.reserved, code, true) && !CodeExists(db.links, code) && !IsHeld(db.prefixes, code)
    case InsertPrefix(orgId, value, _) =>
      orgId >= 1 && IsPrefixText(value) && !IsReserved(c.reserved, value, false) &&
      !CodeExists(db.links, value) && !IsHeld(db.prefixes, value) && |HeldBy(db.prefixes, orgId)| < MAX_PREFIXES_PER_ORG
    case InsertDomain(orgId, hostname, _) => orgId >= 1 && ValidHostname(hostname, c.shortDomain)
    case RecordVisit(_, _) => true
    case InsertClick(_) => true
    case _ => true
  }

  lemma AliasChecked(c: Config, db: Db, orgId: int, alias: string, lookupFails: bool)
    requires Nested(c.reserved) && AliasError(c, db, orgId, alias, lookupFails).None?
    ensures IsCode(alias) && !IsReserved(c.reserved, alias, true) && !IsHeld(db.prefixes, alias)
  {
    ScopesNested(c.reserved, alias, alias);
  }

  lemma DrawnChecked(c: Config, db: Db, draws: seq<string>)
    requires Nested(c.reserved) && UniqueCode(c, db, draws, 0).Ok?
    requires forall i :: 0 <= i < |draws| ==> draws[i] != "" && RandomCode.IsBase62(draws[i])
    ensures
      var code := UniqueCode(c, db, draws, 0).value;
      IsCode(code) && !IsReserved(c.reserved, code, true) && !CodeExists(db.links, code) && !IsHeld(db.prefixes, code)
  {
    UniqueCodeIsFirst(c, db, draws, 0);
    var code := UniqueCode(c, db, draws, 0).value;
    ScopesNested(c.reserved, code, code);
  }

  lemma CreationChecked(c: Config, db: Db, orgId: int, creator: Option<int>, kind: LinkType, dest: Url,
                        input: ShortenInput, o: Outside)
    requires Nested(c.reserved) && orgId >= 1 && (kind == Private ==> creator.Some?)
    requires forall i :: 0 <= i < |o.draws| ==> o.draws[i] != "" && RandomCode.IsBase62(o.draws[i])
    requires PlanCreate(c, db, orgId, creator, kind, dest, input, o).Write?
    ensures Checked(c, db, PlanCreate(c, db, orgId, creator, kind, dest, input, o).stmt)
  {
    var alias := TrimSpace(input.alias);
    if alias != "" {
      AliasChecked(c, db, orgId, alias, o.verifiedLookupFails);
    } else {
      DrawnChecked(c, db, o.draws);
    }
  }

  lemma ShorteningChecked(c: Config, db: Db, call: Call)
    requires Nested(c.reserved) && call.Shortening? && Genuine(call) && PlanOf(c, db, call).Write?
    ensures Checked(c, db, PlanOf(c, db, call).stmt)
  {
    CreationChecked(c, db, call.orgId, call.creator, NormalizeLinkType(call.input.kind).value,
                    NormalizeUrl(call.input.url).value, call.input, call.outside);
  }

  lemma OrgCallChecked(c: Config, db: Db, call: Call)
    requires call.PrefixRequest? || call.DomainRequest?
    requires Genuine(call) && PlanOf(c, db, call).Write?
    ensures Checked(c, db, PlanOf(c, db, call).stmt)
  {
    if call.DomainRequest? {
      NormalizedIsValid(call.hostname, c.shortDomain, c.toAscii, c.isIP);
    }
  }

  lemma PlanChecked(c: Config, db: Db, call: Call)
    requires Nested(c.reserved) && Genuine(call) && PlanOf(c, db, call).Write?
    ensures Checked(c, db, PlanOf(c, db, call).stmt)
  {
    if call.Shortening? {
      ShorteningChecked(c, db, call);
    } else if call.Aliasing? {
      AliasChecked(c, db, call.orgId, TrimSpace(call.alias), call.lookupFails);
    } else if call.PrefixRequest? || call.DomainRequest? {
      OrgCallChecked(c, db, call);
    }
  }

  // -------------------------------------------------------------- preservation

  lemma LinkStmtNamed(c: Config, db: Db, s: Stmt)
    requires Named(c, db) && OfLinks(s) && Checked(c, db, s)
    ensures Named(c, Exec(db, s).0)
  {
    var links' := ExecLink(db.links, db.nextLink, s).0;
    forall l, p | l in links' && p in db.prefixes && Held(db.prefixes[p])
      ensures !EqualFold(links'[l].code, db.prefixes[p].prefix)
    {
      assert HasPrefix(db.prefixes, p, links'[l].code) <==> EqualFold(db.prefixes[p].prefix, links'[l].code);
    }
  }

  lemma PrefixStmtNamed(c: Config, db: Db, s: Stmt)
    requires Named(c, db) && OfPrefixes(s) && Checked(c, db, s)
    ensures Named(c, Exec(db, s).0)
  {
    var prefixes' := ExecPrefix(db.prefixes, db.nextPrefix, s).0;
    forall l, p | l in db.links && p in prefixes' && Held(prefixes'[p])
      ensures !EqualFold(db.links[l].code, prefixes'[p].prefix)
    {
      assert HasCode(db.links, l, prefixes'[p].prefix) <==> EqualFold(db.links[l].code, prefixes'[p].prefix);
    }
  }

  lemma DomainRowNamed(c: Config, db: Db, s: Stmt, id: int)
    requires Named(c, db) && Checked(c, db, s) && id in ExecDomain(db.domains, db.nextDomain, s).0
    ensures DomainNamed(c, ExecDomain(db.domains, db.nextDomain, s).0[id])
  {
    var d := ExecDomain(db.domains, db.nextDomain, s).0[id];
    if id in db.domains && d.orgId == db.domains[id].orgId && d.hostname == db.domains[id].hostname {
      assert DomainNamed(c, db.domains[id]);
    }
  }

  lemma DomainStmtNamed(c: Config, db: Db, s: Stmt)
    requires Named(c, db) && !OfLinks(s) && !OfPrefixes(s) && Checked(c, db, s)
    ensures Named(c, Exec(db, s).0)
  {
    if !s.InsertClick? {
      var domains' := ExecDomain(db.domains, db.nextDomain, s).0;
      forall id | id in domains' ensures DomainNamed(c, domains'[id]) {
        DomainRowNamed(c, db, s, id);
      }
      assert Exec(db, s).0 == db.(domains := domains', nextDomain := ExecDomain(db.domains, db.nextDomain, s).1);
    }
  }

  lemma ExecNamed(c: Config, db: Db, s: Stmt)
    requires Named(c, db) && Checked(c, db, s)
    ensures Named(c, Exec(db, s).0)
  {
    if OfLinks(s) {
      LinkStmtNamed(c, db, s);
    } else if OfPrefixes(s) {
      PrefixStmtNamed(c, db, s);
    } else {
      DomainStmtNamed(c, db, s);
    }
  }

  /** The holdings of an org grow only by its own insertion, by one. */
  lemma ExecHeldBy(c: Config, db: Db, s: Stmt, orgId: int)
    requires PrefixKeys(db.prefixes, db.nextPrefix)
    ensures
      var held, held' := HeldBy(db.prefixes, orgId), HeldBy(ExecPrefix(db.prefixes, db.nextPrefix, s).0, orgId);
      held' <= held || (s.InsertPrefix? && s.orgId == orgId && held' == held + {db.nextPrefix})
  {
  }

  lemma ExecCapped(c: Config, db: Db, s: Stmt)
    requires PrefixKeys(db.prefixes, db.nextPrefix) && Capped(db.prefixes) && Checked(c, db, s)
    ensures Capped(ExecPrefix(db.prefixes, db.nextPrefix, s).0)
  {
    var prefixes' := ExecPrefix(db.prefixes, db.nextPrefix, s).0;
    forall orgId ensures |HeldBy(prefixes', orgId)| <= MAX_PREFIXES_PER_ORG {
      ExecHeldBy(c, db, s, orgId);
      if HeldBy(prefixes', orgId) <= HeldBy(db.prefixes, orgId) {
        SubsetSize(HeldBy(prefixes', orgId), HeldBy(db.prefixes, orgId));
      }
    }
  }

  lemma ExecInv(c: Config, db: Db, s: Stmt)
    requires Inv(c, db) && Checked(c, db, s)
    ensures Inv(c, Exec(db, s).0)
  {
    ExecKeys(db, s);
    ExecNamed(c, db, s);
    ExecCapped(c, db, s);
  }

  lemma CallInv(c: Config, db: Db, call: Call)
    requires Nested(c.reserved) && Inv(c, db) && Genuine(call)
    ensures Inv(c, Perform(db, PlanOf(c, db, call)).0)
  {
    if PlanOf(c, db, call).Write? {
      PlanChecked(c, db, call);
      ExecInv(c, db, PlanOf(c, db, call).stmt);
    }
  }

  // --------------------------------------------------------------------- runs

  ghost function Run(c: Config, db: Db, calls: seq<Call>): Db
    decreases |calls|
  {
    if calls == [] then db else Run(c, Perform(db, PlanOf(c, db, calls[0])).0, calls[1..])
  }

  lemma {:induction false} RunInv(c: Config, db: Db, calls: seq<Call>)
    requires Nested(c.reserved) && Inv(c, db) && forall i :: 0 <= i < |calls| ==> Genuine(calls[i])
    ensures Inv(c, Run(c, db, calls))
    decreases |calls|
  {
    if calls != [] {
      CallInv(c, db, calls[0]);
      RunInv(c, Perform(db, PlanOf(c, db, calls[0])).0, calls[1..]);
    }
  }

  ghost predicate LeadsTo(c: Config, start: Db, calls: seq<Call>, db: Db) {
    (forall i :: 0 <= i < |calls| ==> Genuine(calls[i])) && db == Run(c, start, calls)
  }

  /** The states that runs of service calls lead to from an empty deployment. */
  ghost predicate Reachable(c: Config, db: Db) {
    exists calls :: LeadsTo(c, EMPTY, calls, db)
  }

  lemma LeadsToInv(c: Config, start: Db, calls: seq<Call>, db: Db)
    requires Nested(c.reserved) && Inv(c, start) && LeadsTo(c, start, calls, db)
    ensures Inv(c, db)
  {
    RunInv(c, start, calls);
  }

  lemma ReachableInv(c: Config, db: Db)
    requires Nested(c.reserved) && Reachable(c, db)
    ensures Inv(c, db)
  {
    var calls :| LeadsTo(c, EMPTY, calls, db);
    LeadsToInv(c, EMPTY, calls, db);
  }

  /** The namespace is unambiguous: codes and prefixes are each unique up to
      case, no code is a held prefix, no prefix is reserved, no code is
      functionally reserved, and no org holds more than 20 prefixes. */
  ghost predicate Unambiguous(c: Config, db: Db) {
    && (forall a, b | a in db.links && b in db.links && EqualFold(db.links[a].code, db.links[b].code) :: a == b)
    && (forall a, b | a in db.prefixes && b in db.prefixes &&
        EqualFold(db.prefixes[a].prefix, db.prefixes[b].prefix) :: a == b)
    && (forall l, p | l in db.links && p in db.prefixes && Held(db.prefixes[p]) ::
        !EqualFold(db.links[l].code, db.prefixes[p].prefix))
    && (forall p | p in db.prefixes :: Lower(db.prefixes[p].prefix) !in c.reserved.full)
    && (forall l | l in db.links :: Lower(db.links[l].code) !in c.reserved.functional)
    && (forall orgId :: |HeldBy(db.prefixes, orgId)| <= 20)
  }

  /** Safety of the namespace over every run from an empty deployment. */
  lemma NamespaceSafe(c: Config, db: Db)
    requires Nested(c.reserved) && Reachable(c, db)
    ensures Unambiguous(c, db)
  {
    ReachableInv(c, db);
    InvUnambiguous(c, db);
  }

  lemma InvUnambiguous(c: Config, db: Db)
    requires Inv(c, db)
    ensures Unambiguous(c, db)
  {
    forall a, b | a in db.links && b in db.links && EqualFold(db.links[a].code, db.links[b].code) ensures a == b {
      assert HasCode(db.links, a, db.links[b].code) && HasCode(db.links, b, db.links[b].code);
    }
    forall a, b | a in db.prefixes && b in db.prefixes && EqualFold(db.prefixes[a].prefix, db.prefixes[b].prefix)
      ensures a == b
    {
      assert HasPrefix(db.prefixes, a, db.prefixes[b].prefix) && HasPrefix(db.prefixes, b, db.prefixes[b].prefix);
    }
  }
}
