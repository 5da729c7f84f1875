/** What the management calls answer and leave, said on the rows: aliases, drawn codes,
    new links, prefix requests and decisions, and the primary of an org. */
module Outcomes {
  import opened Common
  import opened Tables
  import opened Reserved
  import opened Urls
  import opened Hosts
  import opened Services
  import opened Links
  import opened Prefixes
  import opened Domains
  import opened Namespace
  import Authority

  // ------------------------------------------------------------------- names

  /** A held prefix has the name, in any case. */
  ghost predicate NameHeld(db: Db, name: string) {
    exists p :: p in db.prefixes && EqualFold(db.prefixes[p].prefix, name) && db.prefixes[p].status != Rejected
  }

  /** A link has the name, in any case. */
  ghost predicate NameTaken(db: Db, name: string) {
    exists l :: l in db.links && EqualFold(db.links[l].code, name)
  }

  /** The org is known to have a verified domain. */
  ghost predicate Relaxed(db: Db, orgId: int, lookupFails: bool) {
    !lookupFails && exists d :: d in db.domains && db.domains[d].orgId == orgId && db.domains[d].status == Verified
  }

  predicate AliasShaped(alias: string) {
    5 <= |alias| <= 50 && forall ch | ch in alias :: IsAlphanumeric(ch) || ch == '-' || ch == '_'
  }

  /** The alias is one that its org may ask for: of the right form, not explicit, and in
      no case a reserved word, of the full set for an org that is not known to have a
      verified domain and of the functional one for an org that is. */
  ghost predicate AliasAllowed(c: Config, db: Db, orgId: int, alias: string, lookupFails: bool) {
    AliasShaped(alias) && !c.explicit(alias) &&
    Lower(alias) !in (if Relaxed(db, orgId, lookupFails) then c.reserved.functional else c.reserved.full)
  }

  /** Alias decisions: a word that is not allowed is 422, a held prefix 409, and every
      other alias passes. */
  lemma AliasDecided(c: Config, db: Db, orgId: int, alias: string, lookupFails: bool)
    ensures
      var e := AliasError(c, db, orgId, alias, lookupFails);
      (e == Some(Unprocessable) <==> !AliasAllowed(c, db, orgId, alias, lookupFails)) &&
      (e == Some(Conflict) <==> AliasAllowed(c, db, orgId, alias, lookupFails) && NameHeld(db, alias)) &&
      (e == None <==> AliasAllowed(c, db, orgId, alias, lookupFails) && !NameHeld(db, alias))
  {
    assert AliasFormat(alias) <==> AliasShaped(alias) by {
      assert forall i :: 0 <= i < |alias| ==> alias[i] in alias;
    }
    assert NameHeld(db, alias) ==> IsHeld(db.prefixes, alias) by {
      if p :| p in db.prefixes && EqualFold(db.prefixes[p].prefix, alias) && db.prefixes[p].status != Rejected {
        assert HasPrefix(db.prefixes, p, alias);
      }
    }
  }

  ghost predicate CodeFree(c: Config, db: Db, code: string) {
    Lower(code) !in c.reserved.full && !NameHeld(db, code) && !NameTaken(db, code)
  }

  lemma AcceptableIsFree(c: Config, db: Db, code: string)
    ensures Acceptable(c, db, code) <==> CodeFree(c, db, code)
  {
    if p :| p in db.prefixes && EqualFold(db.prefixes[p].prefix, code) && db.prefixes[p].status != Rejected {
      assert HasPrefix(db.prefixes, p, code);
    }
    if l :| l in db.links && EqualFold(db.links[l].code, code) {
      assert HasCode(db.links, l, code);
    }
  }

  /** The code taken is the first of the first five draws that is no reserved word of
      the full set, no held prefix and no code, in any case; with no such draw there is
      an error. */
  lemma DrawnIsFirstFree(c: Config, db: Db, draws: seq<string>, k: nat)
    requires k < 5 && k < |draws|
    requires CodeFree(c, db, draws[k]) && forall j :: 0 <= j < k ==> !CodeFree(c, db, draws[j])
    ensures UniqueCode(c, db, draws, 0) == Ok(draws[k])
  {
    forall j | 0 <= j <= k ensures Acceptable(c, db, draws[j]) <==> CodeFree(c, db, draws[j]) {
      AcceptableIsFree(c, db, draws[j]);
    }
    UniqueCodeIsFirst(c, db, draws, 0);
  }

  lemma NoneFree(c: Config, db: Db, draws: seq<string>)
    requires forall j :: 0 <= j < 5 && j < |draws| ==> !CodeFree(c, db, draws[j])
    ensures UniqueCode(c, db, draws, 0).Err?
  {
    forall j | 0 <= j < 5 && j < |draws| ensures !Acceptable(c, db, draws[j]) { AcceptableIsFree(c, db, draws[j]); }
    UniqueCodeIsFirst(c, db, draws, 0);
  }

  ghost predicate Visible(db: Db, orgId: int, viewer: int, id: int) {
    id in db.links && db.links[id].orgId == orgId &&
    (db.links[id].kind == Private ==> db.links[id].creator == Some(viewer))
  }

  /** A rename succeeds if and only if the name is allowed and free and the link one of
      the org's that the viewer may see, or already has that very name; it changes the
      code of that row and nothing else, and a failing one changes nothing. */
  lemma RenamedIff(c: Config, db: Db, orgId: int, viewer: int, id: int, alias: string, lookupFails: bool)
    ensures
      var name := TrimSpace(alias);
      var (db', r) := Perform(db, PlanSetAlias(c, db, orgId, viewer, id, alias, lookupFails));
      (r.Ok? <==> AliasAllowed(c, db, orgId, name, lookupFails) && !NameHeld(db, name) &&
                  Visible(db, orgId, viewer, id) &&
                  (db.links[id].code == name || !NameTaken(db, name))) &&
      (r.Ok? ==> r.value == id && db' == db.(links := db.links[id := db.links[id].(code := name)])) &&
      (r.Err? ==> db' == db)
  {
    var name := TrimSpace(alias);
    AliasDecided(c, db, orgId, name, lookupFails);
    TakenIsCode(db, name);
    if id in db.links { assert db.links[id := db.links[id].(code := db.links[id].code)] == db.links; }
  }

  lemma TakenIsCode(db: Db, name: string)
    ensures NameTaken(db, name) <==> CodeExists(db.links, name)
  {
    if l :| l in db.links && EqualFold(db.links[l].code, name) { assert HasCode(db.links, l, name); }
  }

  lemma HeldIsHeld(db: Db, name: string)
    ensures NameHeld(db, name) <==> IsHeld(db.prefixes, name)
  {
    if p :| p in db.prefixes && EqualFold(db.prefixes[p].prefix, name) && db.prefixes[p].status != Rejected {
      assert HasPrefix(db.prefixes, p, name);
    }
  }

  // --------------------------------------------------------------- new links

  predicate IsPrivate(kind: string) { Lower(TrimSpace(kind)) == "private" }

  predicate KindAllowed(kind: string, creator: Option<int>) {
    var word := Lower(TrimSpace(kind));
    word == "" || word == "public" || (word == "private" && creator.Some?)
  }

  predicate InputValid(input: ShortenInput) {
    input.scheduleParses && input.rules.Some? &&
    !(input.activatesAt.Some? && input.expiresAt.Some? && input.expiresAt.value <= input.activatesAt.value)
  }

  function Tags(u: Utms): Utms {
    Utms(TrimSpace(u.source), TrimSpace(u.medium), TrimSpace(u.campaign))
  }

  /** The org has a link with the destination, up to case, that the creator may see. */
  ghost predicate Known(db: Db, orgId: int, creator: Option<int>, destination: string) {
    exists l :: Visible(db, orgId, if creator.Some? then creator.value else 0, l) &&
                EqualFold(db.links[l].config.destination, destination)
  }

  /** One of the first five draws is free. */
  ghost predicate CodeDrawn(c: Config, db: Db, draws: seq<string>) {
    exists k :: 0 <= k < 5 && k < |draws| && CodeFree(c, db, draws[k])
  }

  /** A name for the new link: the alias, if allowed and free; without one, a free draw,
      unless the destination is known. */
  ghost predicate Nameable(c: Config, db: Db, orgId: int, creator: Option<int>, destination: string, alias: string,
                           o: Outside) {
    if alias != "" then
      AliasAllowed(c, db, orgId, alias, o.verifiedLookupFails) && !NameHeld(db, alias) && !NameTaken(db, alias)
    else !Known(db, orgId, creator, destination) && CodeDrawn(c, db, o.draws)
  }

  lemma CreationIff(c: Config, db: Db, orgId: int, creator: Option<int>, kind: LinkType, dest: Url,
                    input: ShortenInput, o: Outside)
    ensures PlanCreate(c, db, orgId, creator, kind, dest, input, o).Write? <==>
      o.policy.Allow? && !o.flagged && InputValid(input) &&
      Nameable(c, db, orgId, creator, c.appendUtms(dest.text, Tags(input.utms)), TrimSpace(input.alias), o)
  {
    var alias, destination := TrimSpace(input.alias), c.appendUtms(dest.text, Tags(input.utms));
    if alias != "" {
      AliasDecided(c, db, orgId, alias, o.verifiedLookupFails);
      TakenIsCode(db, alias);
    } else {
      KnownIsFound(db, orgId, creator, destination);
      DrawnIff(c, db, o.draws);
    }
  }

  lemma DrawnIff(c: Config, db: Db, draws: seq<string>)
    ensures UniqueCode(c, db, draws, 0).Ok? <==> CodeDrawn(c, db, draws)
  {
    forall k | 0 <= k < |draws| ensures Acceptable(c, db, draws[k]) <==> CodeFree(c, db, draws[k]) {
      AcceptableIsFree(c, db, draws[k]);
    }
    UniqueCodeIsFirst(c, db, draws, 0);
  }

  lemma KnownIsFound(db: Db, orgId: int, creator: Option<int>, destination: string)
    ensures Known(db, orgId, creator, destination) <==>
            FindByDestination(db.links, orgId, Viewer(creator), destination).Some?
  {
    var viewer := if creator.Some? then creator.value else 0;
    if FindByDestination(db.links, orgId, viewer, destination).None? {
      Authority.NoneUpToCase(db.links, orgId, viewer, destination);
      forall l | Visible(db, orgId, viewer, l) ensures !EqualFold(db.links[l].config.destination, destination) {
        assert !SameDestination(db.links, l, orgId, viewer, destination);
      }
    } else {
      var l := FindByDestination(db.links, orgId, Viewer(creator), destination).value;
      assert Visible(db, orgId, Viewer(creator), l);
    }
  }

  /** Shortening makes a link if and only if the kind is allowed, the URL is one outside
      the short domain, the policy allows it, the scanner passes it, schedule and rules
      are valid, and there is a name for it. */
  lemma CreatedIff(c: Config, db: Db, orgId: int, creator: Option<int>, input: ShortenInput, o: Outside)
    ensures PlanShorten(c, db, orgId, creator, input, o).Write? <==>
      var url := NormalizeUrl(input.url);
      KindAllowed(input.kind, creator) && url.Ok? && !EqualFold(url.value.host, c.shortDomain) &&
      o.policy.Allow? && !o.flagged && InputValid(input) &&
      Nameable(c, db, orgId, creator, c.appendUtms(url.value.text, Tags(input.utms)), TrimSpace(input.alias), o)
  {
    var url, kind := NormalizeUrl(input.url), NormalizeLinkType(input.kind);
    if url.Ok? && kind.Some? { CreationIff(c, db, orgId, creator, kind.value, url.value, input, o); }
  }

  /** The rules stored when the k-th insert fails, or all of them. */
  predicate RulesStored(link: Link, rules: seq<Rule>, failsAt: Option<nat>) {
    if failsAt.Some? && failsAt.value < |rules| then link.config.rules == rules[..failsAt.value]
    else link.config.rules == rules
  }

  /** The new link is what was asked for. */
  ghost predicate AsAsked(c: Config, link: Link, orgId: int, creator: Option<int>, dest: Url, input: ShortenInput) {
    && link.orgId == orgId && link.creator == creator && (link.kind == Private <==> IsPrivate(input.kind))
    && link.status == Active && link.visits == 0 && link.lastVisitAt == None
    && link.config.destination == c.appendUtms(dest.text, Tags(input.utms)) && link.config.utms == Tags(input.utms)
    && link.config.deeplink == input.deeplink
    && link.config.activatesAt == input.activatesAt && link.config.expiresAt == input.expiresAt
    && (TrimSpace(input.alias) != "" ==> link.code == TrimSpace(input.alias))
  }

  /** The statement of a creation inserts such a row. */
  ghost predicate Inserts(c: Config, db: Db, plan: Plan, orgId: int, creator: Option<int>, dest: Url,
                          input: ShortenInput, failsAt: Option<nat>)
    requires plan.Write?
  {
    plan.stmt.InsertLink? && input.rules.Some? && !CodeExists(db.links, plan.stmt.link.code) &&
    AsAsked(c, plan.stmt.link, orgId, creator, dest, input) &&
    RulesStored(plan.stmt.link, input.rules.value, failsAt) &&
    plan.late == if failsAt.Some? && failsAt.value < |input.rules.value| then Some(Internal) else None
  }

  lemma CreationAsked(c: Config, db: Db, orgId: int, creator: Option<int>, kind: LinkType, dest: Url,
                      input: ShortenInput, o: Outside)
    requires PlanCreate(c, db, orgId, creator, kind, dest, input, o).Write?
    requires kind == Private <==> IsPrivate(input.kind)
    ensures
      Inserts(c, db, PlanCreate(c, db, orgId, creator, kind, dest, input, o), orgId, creator, dest, input,
              o.ruleFailsAt)
  {
    if TrimSpace(input.alias) == "" { UniqueCodeIsFirst(c, db, o.draws, 0); }
  }

  lemma InsertAsked(c: Config, db: Db, orgId: int, creator: Option<int>, input: ShortenInput, o: Outside)
    requires PlanShorten(c, db, orgId, creator, input, o).Write?
    ensures NormalizeUrl(input.url).Ok?
    ensures Inserts(c, db, PlanShorten(c, db, orgId, creator, input, o), orgId, creator, NormalizeUrl(input.url).value,
                    input, o.ruleFailsAt)
  {
    var kind, dest := NormalizeLinkType(input.kind).value, NormalizeUrl(input.url).value;
    assert !EqualFold(dest.host, c.shortDomain);
    CreationAsked(c, db, orgId, creator, kind, dest, input, o);
  }

  lemma InsertLeaves(db: Db, link: Link, refused: Error, late: Option<Error>)
    requires !CodeExists(db.links, link.code) && link.status == Active && link.visits == 0 && link.lastVisitAt == None
    ensures Perform(db, Write(InsertLink(link), refused, late)) ==
            (db.(links := db.links[db.nextLink := link], nextLink := db.nextLink + 1),
             if late.Some? then Err(late.value) else Ok(db.nextLink))
  {
  }

  /** A shortening that makes a link adds one row, which is what was asked for, and
      answers its id; when the insert of a rule fails it answers an error, although
      the link is there with the rules before that one. */
  lemma CreatedAsAsked(c: Config, db: Db, orgId: int, creator: Option<int>, input: ShortenInput, o: Outside)
    requires PlanShorten(c, db, orgId, creator, input, o).Write?
    ensures NormalizeUrl(input.url).Ok? && input.rules.Some?
    ensures
      var (db', r) := Perform(db, PlanShorten(c, db, orgId, creator, input, o));
      db.nextLink in db'.links &&
      var link, rules := db'.links[db.nextLink], input.rules.value;
      AsAsked(c, link, orgId, creator, NormalizeUrl(input.url).value, input) &&
      RulesStored(link, rules, o.ruleFailsAt) &&
      db' == db.(links := db.links[db.nextLink := link], nextLink := db.nextLink + 1) &&
      r == (if o.ruleFailsAt.Some? && o.ruleFailsAt.value < |rules| then Err(Internal) else Ok(db.nextLink))
  {
    InsertAsked(c, db, orgId, creator, input, o);
    var plan := PlanShorten(c, db, orgId, creator, input, o);
    InsertLeaves(db, plan.stmt.link, plan.refused, plan.late);
  }

  // ------------------------------------------------------------ where shown

  /** An org's links are shown over https on its primary domain, which has to be verified;
      without one, or when its lookup fails, on the short domain behind its primary
      prefix, which has to be approved; and without either on the short domain alone. */
  lemma ShownOn(c: Config, db: Db, orgId: int, domainFails: bool, prefixFails: bool)
    requires Keys(db)
    ensures
      var base := DisplayBase(c, db, orgId, domainFails, prefixFails);
      (forall d | !domainFails && HasPage(db, orgId, d) :: base == Base("https", db.domains[d].hostname, "")) &&
      (domainFails || (forall d :: !HasPage(db, orgId, d)) ==>
         base.scheme == c.shortScheme && base.host == c.shortDomain &&
         (forall p | !prefixFails && HasBrand(db, orgId, p) :: base.prefix == db.prefixes[p].prefix) &&
         (prefixFails || (forall p :: !HasBrand(db, orgId, p)) ==> base.prefix == ""))
  {
    var d, p := PrimaryDomain(db.domains, orgId), PrimaryPrefix(db.prefixes, orgId);
    assert forall other :: HasPage(db, orgId, other) ==> IsPrimaryDomain(db.domains, other, orgId) && d == Some(other);
    assert forall other :: IsPrimaryDomain(db.domains, other, orgId) && db.domains[other].hostname != "" ==>
      HasPage(db, orgId, other);
    assert forall other :: HasBrand(db, orgId, other) <==> IsPrimaryPrefix(db.prefixes, other, orgId);
    assert forall other :: IsPrimaryPrefix(db.prefixes, other, orgId) ==> p == Some(other);
  }

  predicate HasPage(db: Db, orgId: int, d: int) {
    d in db.domains && db.domains[d].orgId == orgId && db.domains[d].primary && db.domains[d].status == Verified &&
    db.domains[d].hostname != ""
  }

  predicate HasBrand(db: Db, orgId: int, p: int) {
    p in db.prefixes && db.prefixes[p].orgId == orgId && db.prefixes[p].primary && db.prefixes[p].status == Approved
  }

  // ------------------------------------------------------- short URLs as input

  ghost predicate OwnApproved(db: Db, orgId: int, value: string) {
    exists p :: HasPrefix(db.prefixes, p, value) && db.prefixes[p].status == Approved && db.prefixes[p].orgId == orgId
  }

  /** The text, split at its first slash, is a code behind an approved prefix of the org,
      or, without a slash, a code alone; and the code is the link's. */
  ghost predicate Names(db: Db, orgId: int, text: string, id: int) {
    var slash := IndexOf(text, '/');
    if slash < 0 then text != "" && HasCode(db.links, id, text)
    else
      var code := text[slash + 1..];
      code != "" && '/' !in code && OwnApproved(db, orgId, text[..slash]) && HasCode(db.links, id, code)
  }

  /** A URL on the short domain is echoed as the link it names, if it is one of the org's
      that the viewer may see; any other is 422. */
  lemma EchoedIff(db: Db, orgId: int, viewer: int, path: string, id: int)
    requires Keys(db)
    ensures
      var plan := PlanExisting(db, orgId, viewer, path);
      (plan == Answer(id) <==> Names(db, orgId, Trim(path, IsSlash), id) && Visible(db, orgId, viewer, id)) &&
      (plan.Answer? || plan == Fail(Unprocessable))
  {
    var p := ReadPath(path);
    TheApproved(db, orgId, p.prefix);
    TheLink(db, p.code, id);
  }

  lemma TheLink(db: Db, code: string, id: int)
    requires LinkKeys(db.links, db.nextLink)
    ensures LinkByCode(db.links, code) == Some(id) <==> HasCode(db.links, id, code)
  {
    var link := LinkByCode(db.links, code);
    if HasCode(db.links, id, code) { assert HasCode(db.links, link.value, code); }
  }

  lemma TheApproved(db: Db, orgId: int, value: string)
    requires PrefixKeys(db.prefixes, db.nextPrefix)
    ensures
      var p := PrefixByValue(db.prefixes, value);
      OwnApproved(db, orgId, value) <==>
      p.Some? && db.prefixes[p.value].orgId == orgId && db.prefixes[p.value].status == Approved
  {
    var p := PrefixByValue(db.prefixes, value);
    assert forall other :: HasPrefix(db.prefixes, other, value) ==> p == Some(other);
  }

  /** What the first check that fails is answered: the limit 403, a failing policy 500,
      a flagged URL or an invalid input 422. */
  lemma RefusedAs(c: Config, db: Db, orgId: int, creator: Option<int>, kind: LinkType, dest: Url,
                  input: ShortenInput, o: Outside)
    ensures
      var plan := PlanCreate(c, db, orgId, creator, kind, dest, input, o);
      (o.policy.Deny? ==> plan == Fail(LimitReached)) && (o.policy.Broken? ==> plan == Fail(Internal)) &&
      (o.policy.Allow? && (o.flagged || !InputValid(input)) ==> plan == Fail(Unprocessable))
  {
  }

  // ---------------------------------------------------------------- prefixes

  /** A request that an org may make: the prefix 3 to 20 letters and digits, equal up to
      case to its registered header, and with the rest of the registration in order. */
  predicate RequestValid(input: PrefixInput) {
    var prefix, id, registry := TrimSpace(input.prefix), TrimSpace(input.entityId), Lower(TrimSpace(input.registry));
    3 <= |prefix| <= 20 && (forall ch | ch in prefix :: IsAlphanumeric(ch)) &&
    EqualFold(TrimSpace(input.header), prefix) && (registry == "" || registry == "in-dlt") &&
    1 <= |id| <= 32 && (forall ch | ch in id :: IsDigit(ch)) &&
    2 <= |TrimSpace(input.entityName)| <= 255 && input.screenshotOk
  }

  lemma ValidatedIff(input: PrefixInput)
    ensures ValidatePrefixInput(input) == if RequestValid(input) then Ok(TrimSpace(input.prefix))
            else Err(Unprocessable)
  {
    var prefix, id := TrimSpace(input.prefix), TrimSpace(input.entityId);
    assert (forall ch | ch in prefix :: IsAlphanumeric(ch)) <==>
           forall i :: 0 <= i < |prefix| ==> IsAlphanumeric(prefix[i]);
    assert (forall ch | ch in id :: IsDigit(ch)) <==> forall i :: 0 <= i < |id| ==> IsDigit(id[i]);
  }

  /** A prefix is requested successfully if and only if an owner asks, the request is
      valid, the word neither reserved nor explicit, the org below its cap and the name
      free among codes and held prefixes; the new row is pending, or approved at once
      where the deployment says so, and never primary. */
  lemma PrefixRequestedIff(c: Config, db: Db, orgId: int, isOwner: bool, input: PrefixInput)
    ensures
      var prefix := TrimSpace(input.prefix);
      var (db', r) := Perform(db, PlanCreatePrefix(c, db, orgId, isOwner, input));
      (r.Ok? <==> isOwner && RequestValid(input) && Lower(prefix) !in c.reserved.full && !c.explicit(prefix) &&
                  |HeldBy(db.prefixes, orgId)| < 20 && !NameHeld(db, prefix) && !NameTaken(db, prefix)) &&
      (r.Err? ==> db' == db) &&
      (r.Ok? ==> r.value == db.nextPrefix && db.nextPrefix in db'.prefixes &&
                 db'.prefixes[db.nextPrefix] ==
                 BrandPrefix(orgId, prefix, if c.autoApprove then Approved else Pending, false) &&
                 forall p | p in db.prefixes && p != db.nextPrefix && db.prefixes[p].status != Rejected ::
                   p in db'.prefixes && db'.prefixes[p] == db.prefixes[p])
  {
    ValidatedIff(input);
    HeldIsHeld(db, TrimSpace(input.prefix));
    TakenIsCode(db, TrimSpace(input.prefix));
  }

  /** The statuses between which a decision moves a prefix. */
  predicate Moves(d: Decision, from: PrefixStatus, to: PrefixStatus) {
    (d.Approve? && from == Pending && to == Approved) || (d.Reject? && from == Pending && to == Rejected) ||
    (d.Revoke? && from == Approved && to == Revoked)
  }

  predicate ReasonGiven(d: Decision, reason: string) {
    |TrimSpace(reason)| <= 500 && (d.Approve? || TrimSpace(reason) != "")
  }

  /** The operator's decisions: an approval approves and a rejection rejects a pending
      prefix, a revocation revokes an approved one, and all else is refused and changes
      nothing. A decided prefix is not primary. */
  lemma DecidedIff(db: Db, id: int, d: Decision, reason: string)
    ensures
      var (db', r) := Perform(db, PlanDecide(db, id, d, reason));
      (r.Ok? <==> ReasonGiven(d, reason) && id in db.prefixes && exists to :: Moves(d, db.prefixes[id].status, to)) &&
      (r.Err? ==> db' == db) &&
      (r.Ok? ==> forall to | Moves(d, db.prefixes[id].status, to) ::
         db' == db.(prefixes := db.prefixes[id := db.prefixes[id].(status := to, primary := false)]))
  {
    if id in db.prefixes {
      var from := db.prefixes[id].status;
      assert Moves(Approve, from, Approved) <==> from == Pending;
      assert Moves(Reject, from, Rejected) <==> from == Pending;
      assert Moves(Revoke, from, Revoked) <==> from == Approved;
    }
  }

  /** An owner deletes an own prefix unless it is revoked, which only a release ends. */
  lemma PrefixGoneIff(db: Db, orgId: int, isOwner: bool, id: int)
    ensures
      var (db', r) := Perform(db, PlanDeletePrefix(db, orgId, isOwner, id));
      (r.Ok? <==> isOwner && id in db.prefixes && db.prefixes[id].orgId == orgId &&
                  db.prefixes[id].status != Revoked) &&
      db' == (if r.Ok? then db.(prefixes := db.prefixes - {id}) else db)
    ensures
      var (db', r) := Perform(db, PlanRelease(db, id));
      (r.Ok? <==> id in db.prefixes && db.prefixes[id].status == Revoked) &&
      db' == (if r.Ok? then db.(prefixes := db.prefixes - {id}) else db)
  {
  }

  /** The rows after the primary swap: the chosen one is the org's primary, no other row
      of the org is, and nothing else has changed. */
  ghost predicate PrefixChosen(before: map<int, BrandPrefix>, after: map<int, BrandPrefix>, orgId: int, chosen: int) {
    after.Keys == before.Keys &&
    forall p | p in before :: after[p] == before[p].(primary := if before[p].orgId == orgId then p == chosen
                                                               else before[p].primary)
  }

  ghost predicate DomainChosen(before: map<int, Domain>, after: map<int, Domain>, orgId: int, chosen: int) {
    after.Keys == before.Keys &&
    forall d | d in before :: after[d] == before[d].(primary := if before[d].orgId == orgId then d == chosen
                                                               else before[d].primary)
  }

  /** An owner makes an own approved prefix the primary one, and likewise an own
      verified domain; whoever else asks, and for whatever else, changes nothing. */
  lemma PrefixChosenIff(db: Db, orgId: int, isOwner: bool, id: int)
    ensures
      var (db', r) := Perform(db, PlanSetPrimaryPrefix(db, orgId, isOwner, id));
      (r.Ok? <==> isOwner && id in db.prefixes && db.prefixes[id].orgId == orgId &&
                  db.prefixes[id].status == Approved) &&
      (r.Ok? ==> PrefixChosen(db.prefixes, db'.prefixes, orgId, id) && db' == db.(prefixes := db'.prefixes)) &&
      (r.Err? ==> db' == db)
  {
  }

  lemma DomainChosenIff(db: Db, orgId: int, isOwner: bool, id: int)
    ensures
      var (db', r) := Perform(db, PlanSetPrimaryDomain(db, orgId, isOwner, id));
      (r.Ok? <==> isOwner && id in db.domains && db.domains[id].orgId == orgId && db.domains[id].status == Verified) &&
      (r.Ok? ==> DomainChosen(db.domains, db'.domains, orgId, id) && db' == db.(domains := db'.domains)) &&
      (r.Err? ==> db' == db)
  {
  }

  ghost predicate HostTaken(db: Db, hostname: string) {
    exists d :: d in db.domains && EqualFold(db.domains[d].hostname, hostname)
  }

  lemma TakenIsFound(db: Db, hostname: string)
    ensures HostTaken(db, hostname) <==> DomainByHostname(db.domains, hostname).Some?
  {
    if d :| d in db.domains && EqualFold(db.domains[d].hostname, hostname) {
      assert HasHostname(db.domains, d, hostname);
    }
  }

  /** An owner registers a hostname that normalizes, that the policy allows and that no
      row has yet; the new domain is unverified, not primary, and has the drawn token. */
  lemma DomainRegisteredIff(c: Config, db: Db, orgId: int, isOwner: bool, raw: string, policy: Policy,
                            token: Option<string>)
    ensures
      var h := NormalizeHostname(raw, c.shortDomain, c.toAscii, c.isIP);
      var (db', r) := Perform(db, PlanCreateDomain(c, db, orgId, isOwner, raw, policy, token));
      (r.Ok? <==> isOwner && h.Ok? && policy.Allow? && token.Some? && !HostTaken(db, h.value)) &&
      (isOwner && h.Ok? && policy.Deny? ==> r == Err(LimitReached)) &&
      (r.Err? ==> db' == db) &&
      (r.Ok? ==>
         var row := Domain(orgId, h.value, token.value, Unverified, false);
         r.value == db.nextDomain &&
         db' == db.(domains := db.domains[db.nextDomain := row], nextDomain := db.nextDomain + 1))
  {
    var h := NormalizeHostname(raw, c.shortDomain, c.toAscii, c.isIP);
    if h.Ok? { TakenIsFound(db, h.value); }
  }

  /** An owner deletes an own domain. */
  lemma DomainGoneIff(db: Db, orgId: int, isOwner: bool, id: int)
    ensures
      var (db', r) := Perform(db, PlanDeleteDomain(orgId, isOwner, id));
      (r.Ok? <==> isOwner && id in db.domains && db.domains[id].orgId == orgId) &&
      db' == (if r.Ok? then db.(domains := db.domains - {id}) else db)
  {
  }

  // ---------------------------------------------------------- other orgs' rows

  /** Statements that name the org whose row they write. */
  predicate OfOrg(s: Stmt) {
    s.UpdateCode? || s.UpdateConfig? || s.SetPrimaryPrefix? || s.DeletePrefix? || s.SetVerified? ||
    s.SetPrimaryDomain? || s.DeleteDomain?
  }

  /** Whenever it runs, such a statement leaves all rows of other orgs, and the clicks,
      alone. */
  lemma OtherOrgsUntouched(db: Db, s: Stmt)
    requires OfOrg(s)
    ensures
      var db' := Exec(db, s).0;
      db'.clicks == db.clicks &&
      (forall l | l in db.links && db.links[l].orgId != s.orgId :: l in db'.links && db'.links[l] == db.links[l]) &&
      (forall p | p in db.prefixes && db.prefixes[p].orgId != s.orgId ::
         p in db'.prefixes && db'.prefixes[p] == db.prefixes[p]) &&
      (forall d | d in db.domains && db.domains[d].orgId != s.orgId ::
         d in db'.domains && db'.domains[d] == db.domains[d])
  {
  }
}
