/** Who may cause what: the calls behind each change of a name, a status or a
    link, and the links a caller is ever shown. */
module Authority {
  import opened Common
  import opened Tables
  import opened Hosts
  import opened Urls
  import opened Services
  import opened Links
  import opened Domains
  import opened Namespace

  ghost function Next(c: Config, db: Db, call: Call): Db {
    Perform(db, PlanOf(c, db, call)).0
  }

  // ------------------------------------------------------------------- links

  /** What a new link owes to the call that made it. */
  ghost predicate BornOf(link: Link, db: Db, call: Call) {
    && call.Shortening? && call.outside.policy.Allow? && !call.outside.flagged
    && link.orgId == call.orgId && link.creator == call.creator
    && link.status == Active && link.visits == 0
    && !CodeExists(db.links, link.code) && !IsHeld(db.prefixes, link.code)
    && (if TrimSpace(call.input.alias) != "" then link.code == TrimSpace(call.input.alias)
        else link.code in call.outside.draws)
  }

  lemma CreationBears(c: Config, db: Db, orgId: int, creator: Option<int>, kind: LinkType, dest: Url,
                      input: ShortenInput, o: Outside)
    requires PlanCreate(c, db, orgId, creator, kind, dest, input, o).Write?
    ensures PlanCreate(c, db, orgId, creator, kind, dest, input, o).stmt.InsertLink?
    ensures
      var link := PlanCreate(c, db, orgId, creator, kind, dest, input, o).stmt.link;
      o.policy.Allow? && !o.flagged && link.orgId == orgId && link.creator == creator && link.kind == kind &&
      !CodeExists(db.links, link.code) && !IsHeld(db.prefixes, link.code) &&
      (if TrimSpace(input.alias) != "" then link.code == TrimSpace(input.alias) else link.code in o.draws)
  {
    if TrimSpace(input.alias) == "" { UniqueCodeIsFirst(c, db, o.draws, 0); }
  }

  lemma ShorteningBears(c: Config, db: Db, orgId: int, creator: Option<int>, input: ShortenInput, o: Outside)
    requires PlanShorten(c, db, orgId, creator, input, o).Write?
    ensures PlanShorten(c, db, orgId, creator, input, o).stmt.InsertLink?
    ensures
      var link := PlanShorten(c, db, orgId, creator, input, o).stmt.link;
      o.policy.Allow? && !o.flagged && link.orgId == orgId && link.creator == creator &&
      (link.kind == Private ==> creator.Some?) &&
      !CodeExists(db.links, link.code) && !IsHeld(db.prefixes, link.code) &&
      (if TrimSpace(input.alias) != "" then link.code == TrimSpace(input.alias) else link.code in o.draws)
  {
    var kind, dest := NormalizeLinkType(input.kind).value, NormalizeUrl(input.url).value;
    assert !EqualFold(dest.host, c.shortDomain);
    CreationBears(c, db, orgId, creator, kind, dest, input, o);
  }

  /** A link is never removed, never changes its org, creator, kind or counters
      by a service call, and is renamed only by a viewer of its org who may see
      it, edited only by its org, and re-enabled or disabled only by the re-scan's
      write. */
  ghost predicate LinkHeldTo(before: Link, after: Link, id: int, call: Call) {
    && after.orgId == before.orgId && after.creator == before.creator && after.kind == before.kind
    && after.visits == before.visits && after.lastVisitAt == before.lastVisitAt
    && (after.code != before.code ==>
          call.Aliasing? && call.id == id && call.orgId == before.orgId && VisibleTo(before, call.viewer) &&
          after.code == TrimSpace(call.alias))
    && (after.config != before.config ==> call.Editing? && call.id == id && call.orgId == before.orgId)
    && (after.status != before.status ==> call.StatusSetting? && call.id == id)
  }

  // -------------------------------------------------------------- confidentiality

  lemma CreationAnswers(c: Config, db: Db, orgId: int, creator: Option<int>, kind: LinkType, dest: Url,
                        input: ShortenInput, o: Outside)
    requires PlanCreate(c, db, orgId, creator, kind, dest, input, o).Answer?
    ensures
      var id := PlanCreate(c, db, orgId, creator, kind, dest, input, o).id;
      OwnedLink(db.links, orgId, id) && VisibleTo(db.links[id], Viewer(creator))
  {
  }

  lemma ShorteningAnswers(c: Config, db: Db, orgId: int, creator: Option<int>, input: ShortenInput, o: Outside)
    requires PlanShorten(c, db, orgId, creator, input, o).Answer?
    ensures
      var id := PlanShorten(c, db, orgId, creator, input, o).id;
      OwnedLink(db.links, orgId, id) && VisibleTo(db.links[id], Viewer(creator))
  {
    var kind, dest := NormalizeLinkType(input.kind).value, NormalizeUrl(input.url).value;
    if !EqualFold(dest.host, c.shortDomain) {
      CreationAnswers(c, db, orgId, creator, kind, dest, input, o);
    }
  }

  /** Whatever is submitted, shortening never answers a link of another org, or a
      PRIVATE link to anyone but its creator: not through dedupe, not through the
      echo of a short URL, and not through creation. */
  lemma OnlyVisibleShown(c: Config, db: Db, orgId: int, creator: Option<int>, input: ShortenInput, o: Outside)
    requires Perform(db, PlanShorten(c, db, orgId, creator, input, o)).1.Ok?
    ensures
      var (db', r) := Perform(db, PlanShorten(c, db, orgId, creator, input, o));
      OwnedLink(db'.links, orgId, r.value) && VisibleTo(db'.links[r.value], Viewer(creator))
  {
    if PlanShorten(c, db, orgId, creator, input, o).Write? {
      ShorteningBears(c, db, orgId, creator, input, o);
    } else {
      ShorteningAnswers(c, db, orgId, creator, input, o);
    }
  }

  /** Dedupe compares destinations up to case: a destination that differs from an
      earlier link's only in the case of its path answers that link. */
  lemma DedupeIgnoresCase(links: map<int, Link>, orgId: int, viewer: int, destination: string, other: string)
    requires EqualFold(destination, other)
    ensures FindByDestination(links, orgId, viewer, destination) == FindByDestination(links, orgId, viewer, other)
  {
    assert forall id :: SameDestination(links, id, orgId, viewer, destination) <==>
           SameDestination(links, id, orgId, viewer, other);
    assert forall id :: IsDuplicate(links, id, orgId, viewer, destination) <==>
           IsDuplicate(links, id, orgId, viewer, other);
  }

  predicate ExactDestination(links: map<int, Link>, id: int, orgId: int, viewer: int, destination: string) {
    SameDestination(links, id, orgId, viewer, destination) && links[id].config.destination == destination
  }

  ghost predicate IsExactDuplicate(links: map<int, Link>, id: int, orgId: int, viewer: int, destination: string) {
    ExactDestination(links, id, orgId, viewer, destination) &&
    forall other :: ExactDestination(links, other, orgId, viewer, destination) ==> id <= other
  }

  /** The first visible link of the org with exactly this destination. */
  ghost function FindExact(links: map<int, Link>, orgId: int, viewer: int, destination: string): Option<int> {
    if exists id :: IsExactDuplicate(links, id, orgId, viewer, destination) then
      var id :| IsExactDuplicate(links, id, orgId, viewer, destination);
      Some(id)
    else None
  }

  /** The exact condition: dedupe answers as one on exact destinations would if and
      only if the first visible link that has the destination up to case, if there is
      one, has it exactly. */
  lemma DedupeExactIff(links: map<int, Link>, orgId: int, viewer: int, destination: string)
    ensures FindByDestination(links, orgId, viewer, destination) == FindExact(links, orgId, viewer, destination) <==>
            forall id | IsDuplicate(links, id, orgId, viewer, destination) ::
              links[id].config.destination == destination
  {
    var found := FindByDestination(links, orgId, viewer, destination);
    if found.Some? {
      assert IsDuplicate(links, found.value, orgId, viewer, destination);
      if links[found.value].config.destination == destination {
        assert IsExactDuplicate(links, found.value, orgId, viewer, destination);
      }
    } else {
      NoneUpToCase(links, orgId, viewer, destination);
    }
  }

  /** Without a first match there is no match. */
  lemma NoneUpToCase(links: map<int, Link>, orgId: int, viewer: int, destination: string)
    requires FindByDestination(links, orgId, viewer, destination).None?
    ensures forall id :: !SameDestination(links, id, orgId, viewer, destination)
  {
    var all := set id | id in links && SameDestination(links, id, orgId, viewer, destination);
    if all != {} {
      var first := Least(all);
      forall other | SameDestination(links, other, orgId, viewer, destination) ensures first <= other {
        assert other in all;
      }
      assert IsDuplicate(links, first, orgId, viewer, destination);
    } else {
      forall id ensures !SameDestination(links, id, orgId, viewer, destination) {
        assert id in all <==> id in links && SameDestination(links, id, orgId, viewer, destination);
      }
    }
  }

  lemma {:induction false} Least(s: set<int>) returns (least: int)
    requires s != {}
    ensures least in s && forall x :: x in s ==> least <= x
    decreases s
  {
    var x := Pick(s);
    var rest := s - {x};
    least := x;
    if rest != {} {
      var other := Least(rest);
      if other < x { least := other; }
    }
    assert forall y :: y in s ==> y == x || y in rest;
  }

  /** An input on which it does not: the only link's destination differs from the
      submitted one in the case of a path, and is answered all the same. */
  lemma DedupeMergesPaths(link: Link, viewer: int)
    requires link.config.destination == "https://e.org/A" && VisibleTo(link, viewer)
    ensures
      var links := map[1 := link];
      FindByDestination(links, link.orgId, viewer, "https://e.org/a") == Some(1) &&
      FindExact(links, link.orgId, viewer, "https://e.org/a") == None
  {
    var links := map[1 := link];
    assert "https://e.org/A"[14] == 'A' && "https://e.org/a"[14] == 'a';
    assert Lower("https://e.org/A") == Lower("https://e.org/a");
    assert IsDuplicate(links, 1, link.orgId, viewer, "https://e.org/a");
  }

  /** To the dedupe a private link of someone else is as good as absent: its
      answer is the same without it. */
  lemma HiddenFromDedupe(links: map<int, Link>, id: int, orgId: int, viewer: int, destination: string)
    requires id in links && !(links[id].orgId == orgId && VisibleTo(links[id], viewer))
    ensures FindByDestination(links - {id}, orgId, viewer, destination) ==
            FindByDestination(links, orgId, viewer, destination)
  {
    var without := links - {id};
    assert forall other :: SameDestination(without, other, orgId, viewer, destination) <==>
      SameDestination(links, other, orgId, viewer, destination);
    assert forall other :: IsDuplicate(without, other, orgId, viewer, destination) <==>
      IsDuplicate(links, other, orgId, viewer, destination);
  }

  // ------------------------------------------------------- calls and statements

  /** The call entitles its caller to the statement it decided on. */
  ghost predicate Sanctioned(c: Config, db: Db, call: Call, s: Stmt) {
    match s
    case InsertLink(link) => BornOf(link.(status := Active, visits := 0), db, call)
    case UpdateCode(orgId, id, code) =>
      call.Aliasing? && call.orgId == orgId && call.id == id && code == TrimSpace(call.alias) &&
      OwnedLink(db.links, orgId, id) && VisibleTo(db.links[id], call.viewer)
    case UpdateConfig(orgId, id, _) => call.Editing? && call.orgId == orgId && call.id == id
    case SetStatus(id, _) => call.StatusSetting? && call.id == id
    case RecordVisit(_, _) => false
    case InsertClick(_) => false
    case InsertPrefix(orgId, _, approved) =>
      call.PrefixRequest? && call.orgId == orgId && call.isOwner && approved == c.autoApprove
    case SetPrimaryPrefix(orgId, _) => call.PrefixPrimary? && call.orgId == orgId && call.isOwner
    case DecidePrefix(id, d) => call.PrefixDecision? && call.id == id && call.decision == d
    case DeletePrefix(orgId, _) => call.PrefixDeletion? && call.orgId == orgId && call.isOwner
    case ReleasePrefix(id) => call == PrefixRelease(id)
    case InsertDomain(orgId, _, _) => call.DomainRequest? && call.orgId == orgId && call.isOwner
    case SetVerified(orgId, id) =>
      call.DomainCheck? && call.orgId == orgId && MayVerify(c, db, call, id)
    case SetPrimaryDomain(orgId, _) => call.DomainPrimary? && call.orgId == orgId && call.isOwner
    case DeleteDomain(orgId, _) => call.DomainDeletion? && call.orgId == orgId && call.isOwner
  }

  lemma ShorteningSanctioned(c: Config, db: Db, call: Call)
    requires call.Shortening? && PlanOf(c, db, call).Write?
    ensures Sanctioned(c, db, call, PlanOf(c, db, call).stmt)
  {
    ShorteningBears(c, db, call.orgId, call.creator, call.input, call.outside);
  }

  lemma LinkCallSanctioned(c: Config, db: Db, call: Call)
    requires call.Aliasing? || call.Editing? || call.StatusSetting?
    requires PlanOf(c, db, call).Write?
    ensures Sanctioned(c, db, call, PlanOf(c, db, call).stmt)
  {
  }

  predicate OfPrefix(call: Call) {
    call.PrefixRequest? || call.PrefixPrimary? || call.PrefixDeletion? || call.PrefixDecision? || call.PrefixRelease?
  }

  lemma PrefixCallSanctioned(c: Config, db: Db, call: Call)
    requires OfPrefix(call) && PlanOf(c, db, call).Write?
    ensures Sanctioned(c, db, call, PlanOf(c, db, call).stmt)
  {
  }

  lemma DomainCallSanctioned(c: Config, db: Db, call: Call)
    requires call.DomainRequest? || call.DomainCheck? || call.DomainPrimary? || call.DomainDeletion?
    requires PlanOf(c, db, call).Write?
    ensures Sanctioned(c, db, call, PlanOf(c, db, call).stmt)
  {
  }

  /** Every statement a call runs is one its caller was entitled to. */
  lemma PlanSanctioned(c: Config, db: Db, call: Call)
    requires PlanOf(c, db, call).Write?
    ensures Sanctioned(c, db, call, PlanOf(c, db, call).stmt)
  {
    if call.Shortening? {
      ShorteningSanctioned(c, db, call);
    } else if call.Aliasing? || call.Editing? || call.StatusSetting? {
      LinkCallSanctioned(c, db, call);
    } else if OfPrefix(call) {
      PrefixCallSanctioned(c, db, call);
    } else {
      DomainCallSanctioned(c, db, call);
    }
  }

  /** A statement the call was entitled to that led from db to db'. */
  ghost predicate Did(c: Config, db: Db, call: Call, s: Stmt, db': Db) {
    Sanctioned(c, db, call, s) && db' == Exec(db, s).0
  }

  lemma NextDid(c: Config, db: Db, call: Call)
    ensures Next(c, db, call) == db || exists s :: Did(c, db, call, s, Next(c, db, call))
  {
    var plan := PlanOf(c, db, call);
    if plan.Write? {
      PlanSanctioned(c, db, call);
      assert Did(c, db, call, plan.stmt, Exec(db, plan.stmt).0);
    }
  }

  // -------------------------------------------------------------------- causes

  /** A link comes into being only through a shortening that the policy allows
      and the scanner passes, in its caller's org and name, under a code that was
      free; it is never removed; and it changes only as LinkHeldTo says. */
  lemma LinksHaveCause(c: Config, db: Db, call: Call, id: int)
    requires LinkKeys(db.links, db.nextLink)
    ensures
      var links' := Next(c, db, call).links;
      (id in db.links ==> id in links' && LinkHeldTo(db.links[id], links'[id], id, call)) &&
      (id !in db.links && id in links' ==> BornOf(links'[id], db, call))
  {
    NextDid(c, db, call);
    var db' := Next(c, db, call);
    if db' != db {
      var s :| Did(c, db, call, s, db');
      LinkCause(c, db, call, s, id);
    }
  }

  lemma LinkCause(c: Config, db: Db, call: Call, s: Stmt, id: int)
    requires LinkKeys(db.links, db.nextLink) && Sanctioned(c, db, call, s)
    ensures
      var links' := Exec(db, s).0.links;
      (id in db.links ==> id in links' && LinkHeldTo(db.links[id], links'[id], id, call)) &&
      (id !in db.links && id in links' ==> BornOf(links'[id], db, call))
  {
    if OfLinks(s) {
      LinkStmtCause(c, db, call, s, id);
    }
  }

  lemma LinkStmtCause(c: Config, db: Db, call: Call, s: Stmt, id: int)
    requires LinkKeys(db.links, db.nextLink) && OfLinks(s) && Sanctioned(c, db, call, s)
    ensures
      var links' := ExecLink(db.links, db.nextLink, s).0;
      (id in db.links ==> id in links' && LinkHeldTo(db.links[id], links'[id], id, call)) &&
      (id !in db.links && id in links' ==> BornOf(links'[id], db, call))
  {
  }

  /** Why a prefix row may be approved after a call that it was not before. */
  ghost predicate MayApprove(c: Config, db: Db, call: Call, id: int) {
    if id in db.prefixes then
      call.PrefixDecision? && call.id == id && call.decision == Approve && db.prefixes[id].status == Pending
    else call.PrefixRequest? && call.isOwner && c.autoApprove
  }

  ghost predicate ApprovedIn(prefixes: map<int, BrandPrefix>, id: int) {
    id in prefixes && prefixes[id].status == Approved
  }

  lemma ApprovalCause(c: Config, db: Db, call: Call, s: Stmt, id: int)
    requires PrefixKeys(db.prefixes, db.nextPrefix) && Sanctioned(c, db, call, s) &&
             ApprovedIn(Exec(db, s).0.prefixes, id)
    ensures ApprovedIn(db.prefixes, id) || MayApprove(c, db, call, id)
  {
  }

  /** An org gets an approved prefix only from the operator's approval of its
      pending request, or from its owner's own request under auto-approval. */
  lemma ApprovalHasCause(c: Config, db: Db, call: Call, id: int)
    requires PrefixKeys(db.prefixes, db.nextPrefix) && ApprovedIn(Next(c, db, call).prefixes, id)
    ensures ApprovedIn(db.prefixes, id) || MayApprove(c, db, call, id)
  {
    NextDid(c, db, call);
    var db' := Next(c, db, call);
    if db' != db {
      var s :| Did(c, db, call, s, db');
      ApprovalCause(c, db, call, s, id);
    }
  }

  ghost predicate VerifiedIn(domains: map<int, Domain>, id: int) {
    id in domains && domains[id].status == Verified
  }

  /** The owner's check of an own domain, answered by a TXT record that, trimmed, is
      the domain's token. */
  ghost predicate MayVerify(c: Config, db: Db, call: Call, id: int) {
    && call.DomainCheck? && call.id == id && call.isOwner && OwnedDomain(db.domains, call.orgId, id)
    && db.domains[id].status == Unverified && call.txt.Some?
    && (exists i :: 0 <= i < |call.txt.value| && TrimSpace(call.txt.value[i]) == db.domains[id].token)
    && Foreign(c, db.domains[id].hostname)
  }

  /** Neither the deployment's own host nor a subdomain of it. */
  predicate Foreign(c: Config, hostname: string) {
    hostname != NormalizeHost(c.shortDomain) && !HasSuffix(hostname, "." + NormalizeHost(c.shortDomain))
  }

  lemma VerificationCause(c: Config, db: Db, call: Call, s: Stmt, id: int)
    requires DomainKeys(db.domains, db.nextDomain) && Sanctioned(c, db, call, s) &&
             VerifiedIn(Exec(db, s).0.domains, id)
    ensures VerifiedIn(db.domains, id) || MayVerify(c, db, call, id)
  {
  }

  /** A domain becomes verified only by its org's owner showing its token in a TXT
      record, and never for the deployment's own host or a subdomain of it. */
  lemma VerificationHasProof(c: Config, db: Db, call: Call, id: int)
    requires DomainKeys(db.domains, db.nextDomain) && VerifiedIn(Next(c, db, call).domains, id)
    ensures VerifiedIn(db.domains, id) || MayVerify(c, db, call, id)
  {
    NextDid(c, db, call);
    var db' := Next(c, db, call);
    if db' != db {
      var s :| Did(c, db, call, s, db');
      VerificationCause(c, db, call, s, id);
    }
  }

  /** The converse: the owner's check of an own unverified domain verifies it when the
      answer holds the token, and is otherwise a conflict that changes nothing. A host
      of the deployment's is refused whatever the answer, a disabled domain too, and a
      verified one stays so. */
  lemma ProofVerifies(c: Config, db: Db, call: Call)
    requires call.DomainCheck? && call.isOwner && OwnedDomain(db.domains, call.orgId, call.id)
    ensures
      var (db', r) := Perform(db, PlanOf(c, db, call));
      var d := db.domains[call.id];
      if d.status == Verified then r == Ok(call.id) && db' == db
      else if d.status == Disabled then r == Err(Conflict) && db' == db
      else if !Foreign(c, d.hostname) then r == Err(Unprocessable) && db' == db
      else if MayVerify(c, db, call, call.id)
      then r == Ok(call.id) && db' == db.(domains := db.domains[call.id := d.(status := Verified)])
      else r == Err(Conflict) && db' == db
  {
  }
}
