/** Link management: shortening, aliases, and the displayed short URL. */
module Links {
  import opened Common
  import opened Tables
  import opened Reserved
  import opened Urls
  import opened Services

  const MAX_CODE_ATTEMPTS := 5

  datatype ShortenInput = ShortenInput(
    url: string, kind: string, alias: string, utms: Utms, deeplink: Option<Deeplink>,
    rules: Option<seq<Rule>>,      // None when a rule does not validate
    scheduleParses: bool, activatesAt: Option<int>, expiresAt: Option<int>)

  /** What the outside answers during one call: the policy, the URL scanner, a
      failing verified-domain lookup, the random codes drawn (a missing draw is a
      randomness error), and the first of the rules' inserts that fails. */
  datatype Outside = Outside(
    policy: Policy, flagged: bool, verifiedLookupFails: bool, draws: seq<string>, ruleFailsAt: Option<nat>)

  /** The rules attached to a new link: all, or those before the insert that fails. */
  function Attached(rules: seq<Rule>, failsAt: Option<nat>): seq<Rule> {
    if failsAt.Some? && failsAt.value < |rules| then rules[..failsAt.value] else rules
  }

  /** A failing rule insert is answered as an error, although the link is there. */
  function LateError(rules: seq<Rule>, failsAt: Option<nat>): Option<Error> {
    if failsAt.Some? && failsAt.value < |rules| then Some(Internal) else None
  }

  function NormalizeLinkType(t: string): Option<LinkType> {
    var t := Lower(TrimSpace(t));
    if t == "" || t == "public" then Some(Public)
    else if t == "private" then Some(Private)
    else None
  }

  /** PRIVATE links are their creator's only; 0 is no viewer. */
  predicate VisibleTo(link: Link, viewer: int) {
    link.kind == Public || link.creator == Some(viewer)
  }

  function Viewer(creator: Option<int>): int {
    if creator.Some? then creator.value else 0
  }

  /** The dedupe query's WHERE clause. The column has no collation of its own, so
      destinations compare as codes do. */
  predicate SameDestination(links: map<int, Link>, id: int, orgId: int, viewer: int, destination: string) {
    id in links && links[id].orgId == orgId && VisibleTo(links[id], viewer) &&
    EqualFold(links[id].config.destination, destination)
  }

  ghost predicate IsDuplicate(links: map<int, Link>, id: int, orgId: int, viewer: int, destination: string) {
    SameDestination(links, id, orgId, viewer, destination) &&
    forall other :: SameDestination(links, other, orgId, viewer, destination) ==> id <= other
  }

  /** The first visible link of the org with this destination. */
  ghost function FindByDestination(links: map<int, Link>, orgId: int, viewer: int, destination: string): Option<int> {
    if exists id :: IsDuplicate(links, id, orgId, viewer, destination) then
      var id :| IsDuplicate(links, id, orgId, viewer, destination);
      Some(id)
    else None
  }

  predicate AliasFormat(alias: string) {
    5 <= |alias| <= 50 && forall i :: 0 <= i < |alias| ==> CodeChar(alias[i])
  }

  /** validateAlias: the error, if any. A failed verified-domain lookup falls
      back to the strict reserved list. */
  ghost function AliasError(c: Config, db: Db, orgId: int, alias: string, lookupFails: bool): Option<Error> {
    if !AliasFormat(alias) || c.explicit(alias) then Some(Unprocessable)
    else if IsReserved(c.reserved, alias, !lookupFails && HasVerified(db.domains, orgId)) then Some(Unprocessable)
    else if IsHeld(db.prefixes, alias) then Some(Conflict)
    else None
  }

  /** A drawn code that uniqueCode takes. */
  ghost predicate Acceptable(c: Config, db: Db, code: string) {
    !IsReserved(c.reserved, code, false) && !IsHeld(db.prefixes, code) && !CodeExists(db.links, code)
  }

  /** uniqueCode from attempt i on. */
  ghost function UniqueCode(c: Config, db: Db, draws: seq<string>, i: nat): Result<string>
    decreases MAX_CODE_ATTEMPTS - i
  {
    if i >= MAX_CODE_ATTEMPTS then Err(Conflict)
    else if i >= |draws| then Err(Internal)
    else if Acceptable(c, db, draws[i]) then Ok(draws[i])
    else UniqueCode(c, db, draws, i + 1)
  }

  /** uniqueCode takes the first acceptable of the first five draws and fails
      exactly when there is none. */
  lemma {:induction false} UniqueCodeIsFirst(c: Config, db: Db, draws: seq<string>, i: nat)
    requires i <= MAX_CODE_ATTEMPTS
    ensures
      var r := UniqueCode(c, db, draws, i);
      (r.Ok? <==> exists k :: i <= k < MAX_CODE_ATTEMPTS && k < |draws| && Acceptable(c, db, draws[k])) &&
      (r.Ok? ==> exists k :: i <= k < MAX_CODE_ATTEMPTS && k < |draws| && r.value == draws[k] &&
                   Acceptable(c, db, draws[k]) && forall j :: i <= j < k ==> !Acceptable(c, db, draws[j]))
    decreases MAX_CODE_ATTEMPTS - i
  {
    if i < MAX_CODE_ATTEMPTS && i < |draws| && !Acceptable(c, db, draws[i]) {
      UniqueCodeIsFirst(c, db, draws, i + 1);
    }
  }

  datatype ShortPath = ShortPath(prefix: string, code: string, scoped: bool)

  /** The path of a URL on the short domain, read as /code or /prefix/code. */
  function ReadPath(path: string): ShortPath {
    var path := Trim(path, IsSlash);
    var slash := IndexOf(path, '/');
    if slash < 0 then ShortPath("", path, false) else ShortPath(path[..slash], path[slash + 1..], true)
  }

  /** existingShortURL: the link a URL on the short domain refers to. */
  ghost function PlanExisting(db: Db, orgId: int, viewer: int, path: string): Plan {
    var p := ReadPath(path);
    if p.code == "" || '/' in p.code then Fail(Unprocessable)
    else
      var prefix := PrefixByValue(db.prefixes, p.prefix);
      if p.scoped && (prefix.None? || db.prefixes[prefix.value].orgId != orgId ||
                      db.prefixes[prefix.value].status != Approved) then Fail(Unprocessable)
      else
        var link := LinkByCode(db.links, p.code);
        if link.None? || db.links[link.value].orgId != orgId || !VisibleTo(db.links[link.value], viewer)
        then Fail(Unprocessable)
        else Answer(link.value)
  }

  function TrimUtms(u: Utms): Utms {
    Utms(TrimSpace(u.source), TrimSpace(u.medium), TrimSpace(u.campaign))
  }

  predicate ScheduleValid(input: ShortenInput) {
    input.scheduleParses &&
    (input.activatesAt.Some? && input.expiresAt.Some? ==> input.activatesAt.value < input.expiresAt.value)
  }

  function NewLink(orgId: int, creator: Option<int>, kind: LinkType, code: string, destination: string,
                   input: ShortenInput, rules: seq<Rule>): Link
  {
    Link(orgId, creator, code, kind, Active,
         LinkConfig(destination, TrimUtms(input.utms), input.deeplink, rules, input.activatesAt, input.expiresAt),
         0, None)
  }

  /** The creation path, once the destination is known to be foreign. */
  ghost function PlanCreate(c: Config, db: Db, orgId: int, creator: Option<int>, kind: LinkType, dest: Url,
                            input: ShortenInput, o: Outside): Plan {
    if o.policy.Deny? then Fail(LimitReached)
    else if o.policy.Broken? then Fail(Internal)
    else if o.flagged then Fail(Unprocessable)
    else if !ScheduleValid(input) || input.rules.None? then Fail(Unprocessable)
    else
      var destination := c.appendUtms(dest.text, TrimUtms(input.utms));
      var rules, late := Attached(input.rules.value, o.ruleFailsAt), LateError(input.rules.value, o.ruleFailsAt);
      var alias := TrimSpace(input.alias);
      if alias != "" then
        var e := AliasError(c, db, orgId, alias, o.verifiedLookupFails);
        if e.Some? then Fail(e.value)
        else if CodeExists(db.links, alias) then Fail(Conflict)
        else Write(InsertLink(NewLink(orgId, creator, kind, alias, destination, input, rules)), Internal, late)
      else
        var existing := FindByDestination(db.links, orgId, Viewer(creator), destination);
        if existing.Some? then Answer(existing.value)
        else
          match UniqueCode(c, db, o.draws, 0)
          case Err(e) => Fail(e)
          case Ok(code) =>
            Write(InsertLink(NewLink(orgId, creator, kind, code, destination, input, rules)), Internal, late)
  }

  /** shorten: creator is None on the API-key path. */
  ghost function PlanShorten(c: Config, db: Db, orgId: int, creator: Option<int>, input: ShortenInput,
                             o: Outside): Plan {
    match NormalizeLinkType(input.kind)
    case None => Fail(Unprocessable)
    case Some(kind) =>
      if kind == Private && creator.None? then Fail(Unprocessable)
      else
        match NormalizeUrl(input.url)
        case Err(e) => Fail(e)
        case Ok(dest) =>
          if EqualFold(dest.host, c.shortDomain) then PlanExisting(db, orgId, Viewer(creator), dest.path)
          else PlanCreate(c, db, orgId, creator, kind, dest, input, o)
  }

  ghost predicate MayShorten(input: ShortenInput, creator: Option<int>) {
    var kind := NormalizeLinkType(input.kind);
    kind.Some? && (kind.value == Private ==> creator.Some?)
  }

  ghost function PlanSetAlias(c: Config, db: Db, orgId: int, viewer: int, id: int, alias: string,
                              lookupFails: bool): Plan {
    var alias := TrimSpace(alias);
    var e := AliasError(c, db, orgId, alias, lookupFails);
    if e.Some? then Fail(e.value)
    else if !OwnedLink(db.links, orgId, id) || !VisibleTo(db.links[id], viewer) then Fail(NotFound)
    else if db.links[id].code == alias then Answer(id)
    else if CodeExists(db.links, alias) then Fail(Conflict)
    else Write(UpdateCode(orgId, id, alias), Internal)
  }

  // ------------------------------------------------------------------ display

  /** Where an org's short URLs are displayed: scheme, host and brand prefix. */
  datatype Base = Base(scheme: string, host: string, prefix: string)

  /** displayBase, with the two lookups failing or not. */
  ghost function DisplayBase(c: Config, db: Db, orgId: int, domainFails: bool, prefixFails: bool): Base {
    var d := PrimaryDomain(db.domains, orgId);
    var p := PrimaryPrefix(db.prefixes, orgId);
    if !domainFails && d.Some? && db.domains[d.value].hostname != ""
    then Base("https", db.domains[d.value].hostname, "")
    else if !prefixFails && p.Some? then Base(c.shortScheme, c.shortDomain, db.prefixes[p.value].prefix)
    else Base(c.shortScheme, c.shortDomain, "")
  }

  function BaseText(b: Base): string {
    if b.prefix == "" then b.scheme + "://" + b.host else b.scheme + "://" + b.host + "/" + b.prefix
  }

  /** withShortURL. */
  function ShortUrl(b: Base, code: string): string {
    BaseText(b) + "/" + code
  }

  lemma ShortUrlIsPrint(b: Base, code: string)
    ensures ShortUrl(b, code) == Print(b.scheme, b.host, b.prefix, code)
  {
    if b.prefix == "" {
      assert b.scheme + "://" + b.host + "/" + code == b.scheme + ("://" + (b.host + ("/" + code)));
    } else {
      assert b.scheme + "://" + b.host + "/" + b.prefix + "/" + code ==
             b.scheme + ("://" + (b.host + ("/" + (b.prefix + "/" + code))));
    }
  }

  // ------------------------------------------------------------------ service

  class LinkService {
    const c: Config
    const db: Database

    constructor (c: Config, db: Database)
      ensures this.c == c && this.db == db
    {
      this.c, this.db := c, db;
    }

    method ValidateAlias(orgId: int, alias: string, lookupFails: bool) returns (e: Option<Error>)
      requires db.Valid()
      ensures e == AliasError(c, db.View(), orgId, alias, lookupFails)
    {
      if !AliasFormat(alias) || c.explicit(alias) { return Some(Unprocessable); }
      var customScope := db.HasVerifiedDomain(orgId);
      if lookupFails { customScope := false; }
      if IsReserved(c.reserved, alias, customScope) { return Some(Unprocessable); }
      var held := db.IsHeldPrefix(alias);
      if held { return Some(Conflict); }
      return None;
    }

    method GenerateCode(draws: seq<string>) returns (r: Result<string>)
      requires db.Valid()
      ensures r == UniqueCode(c, db.View(), draws, 0)
    {
      for i := 0 to MAX_CODE_ATTEMPTS
        invariant UniqueCode(c, db.View(), draws, 0) == UniqueCode(c, db.View(), draws, i)
      {
        if i >= |draws| { return Err(Internal); }
        var code := draws[i];
        if IsReserved(c.reserved, code, false) { continue; }
        var held := db.IsHeldPrefix(code);
        if held { continue; }
        var taken := db.FindLink(code);
        if taken.None? { return Ok(code); }
      }
      return Err(Conflict);
    }

    method Dedupe(orgId: int, viewer: int, destination: string) returns (r: Option<int>)
      requires db.Valid()
      ensures r == FindByDestination(db.links, orgId, viewer, destination)
    {
      for id := 1 to db.nextLink
        invariant forall other :: SameDestination(db.links, other, orgId, viewer, destination) ==> id <= other
      {
        if SameDestination(db.links, id, orgId, viewer, destination) {
          assert IsDuplicate(db.links, id, orgId, viewer, destination);
          return Some(id);
        }
      }
      return None;
    }

    method ExistingShortURL(orgId: int, viewer: int, path: string) returns (r: Result<int>)
      requires db.Valid()
      ensures (db.View(), r) == Perform(db.View(), PlanExisting(db.View(), orgId, viewer, path))
    {
      var p := ReadPath(path);
      if p.code == "" || '/' in p.code { return Err(Unprocessable); }
      if p.scoped {
        var prefix := db.FindPrefix(p.prefix);
        if prefix.None? || db.prefixes[prefix.value].orgId != orgId ||
          db.prefixes[prefix.value].status != Approved {
          return Err(Unprocessable);
        }
      }
      var link := db.FindLink(p.code);
      if link.None? || db.links[link.value].orgId != orgId || !VisibleTo(db.links[link.value], viewer) {
        return Err(Unprocessable);
      }
      return Ok(link.value);
    }

    method Create(orgId: int, creator: Option<int>, kind: LinkType, dest: Url, input: ShortenInput, o: Outside)
      returns (r: Result<int>)
      requires db.Valid()
      modifies db
      ensures db.Valid()
      ensures (db.View(), r) ==
              Perform(old(db.View()), PlanCreate(c, old(db.View()), orgId, creator, kind, dest, input, o))
    {
      match o.policy {
        case Deny => return Err(LimitReached);
        case Broken => return Err(Internal);
        case Allow =>
      }
      if o.flagged { return Err(Unprocessable); }
      var destination := c.appendUtms(dest.text, TrimUtms(input.utms));
      if !ScheduleValid(input) { return Err(Unprocessable); }
      if input.rules.None? { return Err(Unprocessable); }
      var alias := TrimSpace(input.alias);
      var code := alias;
      if alias != "" {
        var e := ValidateAlias(orgId, alias, o.verifiedLookupFails);
        if e.Some? { return Err(e.value); }
        var taken := db.FindLink(alias);
        if taken.Some? { return Err(Conflict); }
      } else {
        var existing := Dedupe(orgId, Viewer(creator), destination);
        if existing.Some? { return Ok(existing.value); }
        var drawn := GenerateCode(o.draws);
        if drawn.Err? { return Err(drawn.error); }
        code := drawn.value;
      }
      var rules, late := Attached(input.rules.value, o.ruleFailsAt), LateError(input.rules.value, o.ruleFailsAt);
      r := Commit(db, InsertLink(NewLink(orgId, creator, kind, code, destination, input, rules)), Internal, late);
    }

    method Shorten(orgId: int, creator: Option<int>, input: ShortenInput, o: Outside) returns (r: Result<int>)
      requires db.Valid()
      modifies db
      ensures db.Valid()
      ensures (db.View(), r) == Perform(old(db.View()), PlanShorten(c, old(db.View()), orgId, creator, input, o))
    {
      var kind := NormalizeLinkType(input.kind);
      if kind.None? { return Err(Unprocessable); }
      if kind.value == Private && creator.None? { return Err(Unprocessable); }
      var dest := NormalizeUrl(input.url);
      if dest.Err? { return Err(dest.error); }
      if EqualFold(dest.value.host, c.shortDomain) {
        r := ExistingShortURL(orgId, Viewer(creator), dest.value.path);
      } else {
        r := Create(orgId, creator, kind.value, dest.value, input, o);
      }
    }

    method SetAlias(orgId: int, viewer: int, id: int, alias: string, lookupFails: bool) returns (r: Result<int>)
      requires db.Valid()
      modifies db
      ensures db.Valid()
      ensures (db.View(), r) ==
              Perform(old(db.View()), PlanSetAlias(c, old(db.View()), orgId, viewer, id, alias, lookupFails))
    {
      var alias := TrimSpace(alias);
      var e := ValidateAlias(orgId, alias, lookupFails);
      if e.Some? { return Err(e.value); }
      if !OwnedLink(db.links, orgId, id) || !VisibleTo(db.links[id], viewer) { return Err(NotFound); }
      if db.links[id].code == alias { return Ok(id); }
      var taken := db.FindLink(alias);
      if taken.Some? { return Err(Conflict); }
      r := Commit(db, UpdateCode(orgId, id, alias), Internal);
    }

    /** The displayed short URL of one of the org's links. */
    method Display(orgId: int, id: int, domainFails: bool, prefixFails: bool) returns (text: string)
      requires db.Valid() && OwnedLink(db.links, orgId, id)
      ensures text == ShortUrl(DisplayBase(c, db.View(), orgId, domainFails, prefixFails), db.links[id].code)
    {
      var host := "";
      if !domainFails {
        var d := db.PrimaryDomainOf(orgId);
        if d.Some? { host := db.domains[d.value].hostname; }
      }
      if host != "" { return "https://" + host + "/" + db.links[id].code; }
      var base := c.shortScheme + "://" + c.shortDomain;
      if !prefixFails {
        var p := db.PrimaryPrefixOf(orgId);
        if p.Some? && db.prefixes[p.value].prefix != "" { base := base + "/" + db.prefixes[p.value].prefix; }
      }
      return base + "/" + db.links[id].code;
    }
  }
}
