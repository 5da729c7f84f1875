/** Custom short domains: registration, verification, and the primary swap. */
module Domains {
  import opened Common
  import opened Tables
  import opened Hosts
  import opened Services

  predicate OwnedDomain(domains: map<int, Domain>, orgId: int, id: int) {
    id in domains && domains[id].orgId == orgId
  }

  /** Create; token is the drawn verification token, None on a randomness error. */
  ghost function PlanCreateDomain(c: Config, db: Db, orgId: int, isOwner: bool, hostname: string, policy: Policy,
                                  token: Option<string>): Plan {
    if !isOwner then Fail(Forbidden)
    else
      match NormalizeHostname(hostname, c.shortDomain, c.toAscii, c.isIP)
      case Err(e) => Fail(e)
      case Ok(h) =>
        if policy.Deny? then Fail(LimitReached)
        else if policy.Broken? then Fail(Internal)
        else if DomainByHostname(db.domains, h).Some? then Fail(Conflict)
        else if token.None? then Fail(Internal)
        else Write(InsertDomain(orgId, h, token.value), Internal)
  }

  /** The TXT answer proves ownership: some value equals the token. */
  predicate Proves(txt: Option<seq<string>>, token: string) {
    txt.Some? && exists v | v in txt.value :: TrimSpace(v) == token
  }

  /** Verify, with the answer of the TXT lookup (None when it fails). */
  function PlanVerify(c: Config, db: Db, orgId: int, isOwner: bool, id: int, txt: Option<seq<string>>): Plan {
    if !isOwner then Fail(Forbidden)
    else if !OwnedDomain(db.domains, orgId, id) then Fail(NotFound)
    else if db.domains[id].status == Verified then Answer(id)
    else if db.domains[id].status == Disabled then Fail(Conflict)
    else if RejectedHost(db.domains[id].hostname, c.shortDomain) then Fail(Unprocessable)
    else if !Proves(txt, db.domains[id].token) then Fail(Conflict)
    else Write(SetVerified(orgId, id), Internal)
  }

  function PlanSetPrimaryDomain(db: Db, orgId: int, isOwner: bool, id: int): Plan {
    if !isOwner then Fail(Forbidden)
    else if !OwnedDomain(db.domains, orgId, id) then Fail(NotFound)
    else if db.domains[id].status != Verified then Fail(Unprocessable)
    else Write(SetPrimaryDomain(orgId, id), Unprocessable)
  }

  function PlanDeleteDomain(orgId: int, isOwner: bool, id: int): Plan {
    if !isOwner then Fail(Forbidden) else Write(DeleteDomain(orgId, id), NotFound)
  }

  class DomainService {
    const c: Config
    const db: Database

    constructor (c: Config, db: Database)
      ensures this.c == c && this.db == db
    {
      this.c, this.db := c, db;
    }

    method Create(orgId: int, isOwner: bool, hostname: string, policy: Policy, token: Option<string>)
      returns (r: Result<int>)
      requires db.Valid()
      modifies db
      ensures db.Valid()
      ensures (db.View(), r) ==
              Perform(old(db.View()), PlanCreateDomain(c, old(db.View()), orgId, isOwner, hostname, policy, token))
    {
      if !isOwner { return Err(Forbidden); }
      var h := NormalizeHostname(hostname, c.shortDomain, c.toAscii, c.isIP);
      if h.Err? { return Err(h.error); }
      match policy {
        case Deny => return Err(LimitReached);
        case Broken => return Err(Internal);
        case Allow =>
      }
      var existing := db.FindDomain(h.value);
      if existing.Some? { return Err(Conflict); }
      if token.None? { return Err(Internal); }
      r := Commit(db, InsertDomain(orgId, h.value, token.value), Internal);
    }

    method CheckTXTRecord(token: string, txt: Option<seq<string>>) returns (ok: bool)
      ensures ok <==> Proves(txt, token)
    {
      if txt.None? { return false; }
      for i := 0 to |txt.value|
        invariant forall j :: 0 <= j < i ==> TrimSpace(txt.value[j]) != token
      {
        if TrimSpace(txt.value[i]) == token { return true; }
      }
      return false;
    }

    method Verify(orgId: int, isOwner: bool, id: int, txt: Option<seq<string>>) returns (r: Result<int>)
      requires db.Valid()
      modifies db
      ensures db.Valid()
      ensures (db.View(), r) == Perform(old(db.View()), PlanVerify(c, old(db.View()), orgId, isOwner, id, txt))
    {
      if !isOwner { return Err(Forbidden); }
      if !OwnedDomain(db.domains, orgId, id) { return Err(NotFound); }
      match db.domains[id].status {
        case Verified => return Ok(id);
        case Disabled => return Err(Conflict);
        case Unverified =>
      }
      if RejectedHost(db.domains[id].hostname, c.shortDomain) { return Err(Unprocessable); }
      var proven := CheckTXTRecord(db.domains[id].token, txt);
      if !proven { return Err(Conflict); }
      r := Commit(db, SetVerified(orgId, id), Internal);
    }

    method SetPrimary(orgId: int, isOwner: bool, id: int) returns (r: Result<int>)
      requires db.Valid()
      modifies db
      ensures db.Valid()
      ensures (db.View(), r) == Perform(old(db.View()), PlanSetPrimaryDomain(old(db.View()), orgId, isOwner, id))
    {
      if !isOwner { return Err(Forbidden); }
      if !OwnedDomain(db.domains, orgId, id) { return Err(NotFound); }
      if db.domains[id].status != Verified { return Err(Unprocessable); }
      r := Commit(db, SetPrimaryDomain(orgId, id), Unprocessable);
    }

    method Delete(orgId: int, isOwner: bool, id: int) returns (r: Result<int>)
      requires db.Valid()
      modifies db
      ensures db.Valid()
      ensures (db.View(), r) == Perform(old(db.View()), PlanDeleteDomain(orgId, isOwner, id))
    {
      if !isOwner { return Err(Forbidden); }
      r := Commit(db, DeleteDomain(orgId, id), NotFound);
    }
  }
}
