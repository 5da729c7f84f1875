/** Brand prefixes: the org's requests and the operator's decisions. */
module Prefixes {
  import opened Common
  import opened Tables
  import opened Reserved
  import opened Urls
  import opened Services

  const MAX_PREFIXES_PER_ORG := 20
  const MAX_REASON_LENGTH := 500

  /** A request; screenshotOk says that a valid screenshot is attached. */
  datatype PrefixInput = PrefixInput(
    prefix: string, registry: string, entityId: string, header: string, entityName: string, screenshotOk: bool)

  predicate PrefixFormat(s: string) { 3 <= |s| <= 20 && IsPrefixText(s) }

  predicate EntityIdFormat(s: string) { 1 <= |s| <= 32 && forall i :: 0 <= i < |s| ==> IsDigit(s[i]) }

  /** validatePrefixInput and validateScreenshot: the trimmed prefix, if valid. */
  function ValidatePrefixInput(input: PrefixInput): Result<string> {
    var prefix := TrimSpace(input.prefix);
    var registry := Lower(TrimSpace(input.registry));
    var name := TrimSpace(input.entityName);
    if !PrefixFormat(prefix) then Err(Unprocessable)
    else if registry != "" && registry != "in-dlt" then Err(Unprocessable)
    else if !EntityIdFormat(TrimSpace(input.entityId)) then Err(Unprocessable)
    else if !EqualFold(TrimSpace(input.header), prefix) then Err(Unprocessable)
    else if |name| < 2 || |name| > 255 then Err(Unprocessable)
    else if !input.screenshotOk then Err(Unprocessable)
    else Ok(prefix)
  }

  /** Create, for an actor that is an owner of the org or not. */
  ghost function PlanCreatePrefix(c: Config, db: Db, orgId: int, isOwner: bool, input: PrefixInput): Plan {
    if !isOwner then Fail(Forbidden)
    else
      match ValidatePrefixInput(input)
      case Err(e) => Fail(e)
      case Ok(prefix) =>
        if IsReserved(c.reserved, prefix, false) || c.explicit(prefix) then Fail(Unprocessable)
        else if |HeldBy(db.prefixes, orgId)| >= MAX_PREFIXES_PER_ORG then Fail(Unprocessable)
        else if IsHeld(db.prefixes, prefix) then Fail(Conflict)
        else if CodeExists(db.links, prefix) then Fail(Conflict)
        else Write(InsertPrefix(orgId, prefix, c.autoApprove), Internal)
  }

  predicate OwnedPrefix(prefixes: map<int, BrandPrefix>, orgId: int, id: int) {
    id in prefixes && prefixes[id].orgId == orgId
  }

  function PlanSetPrimaryPrefix(db: Db, orgId: int, isOwner: bool, id: int): Plan {
    if !isOwner then Fail(Forbidden)
    else if !OwnedPrefix(db.prefixes, orgId, id) then Fail(NotFound)
    else if db.prefixes[id].status != Approved then Fail(Unprocessable)
    else Write(SetPrimaryPrefix(orgId, id), Unprocessable)
  }

  function PlanDeletePrefix(db: Db, orgId: int, isOwner: bool, id: int): Plan {
    if !isOwner then Fail(Forbidden)
    else if !OwnedPrefix(db.prefixes, orgId, id) then Fail(NotFound)
    else if db.prefixes[id].status == Revoked then Fail(Conflict)
    else Write(DeletePrefix(orgId, id), Conflict)
  }

  /** decidePrefix: the write is conditional on the status, not on this read. */
  function PlanDecide(db: Db, id: int, d: Decision, reason: string): Plan {
    var reason := TrimSpace(reason);
    if !d.Approve? && reason == "" then Fail(Unprocessable)
    else if |reason| > MAX_REASON_LENGTH then Fail(Unprocessable)
    else if id !in db.prefixes then Fail(NotFound)
    else Write(DecidePrefix(id, d), Conflict)
  }

  function PlanRelease(db: Db, id: int): Plan {
    if id !in db.prefixes then Fail(NotFound) else Write(ReleasePrefix(id), Conflict)
  }

  class PrefixService {
    const c: Config
    const db: Database

    constructor (c: Config, db: Database)
      ensures this.c == c && this.db == db
    {
      this.c, this.db := c, db;
    }

    method Create(orgId: int, isOwner: bool, input: PrefixInput) returns (r: Result<int>)
      requires db.Valid()
      modifies db
      ensures db.Valid()
      ensures (db.View(), r) == Perform(old(db.View()), PlanCreatePrefix(c, old(db.View()), orgId, isOwner, input))
    {
      if !isOwner { return Err(Forbidden); }
      var prefix := ValidatePrefixInput(input);
      if prefix.Err? { return Err(prefix.error); }
      if IsReserved(c.reserved, prefix.value, false) || c.explicit(prefix.value) { return Err(Unprocessable); }
      if |HeldBy(db.prefixes, orgId)| >= MAX_PREFIXES_PER_ORG { return Err(Unprocessable); }
      var existing := db.FindPrefix(prefix.value);
      if existing.Some? && db.prefixes[existing.value].status != Rejected { return Err(Conflict); }
      var taken := db.FindLink(prefix.value);
      if taken.Some? { return Err(Conflict); }
      r := Commit(db, InsertPrefix(orgId, prefix.value, c.autoApprove), Internal);
    }

    method SetPrimary(orgId: int, isOwner: bool, id: int) returns (r: Result<int>)
      requires db.Valid()
      modifies db
      ensures db.Valid()
      ensures (db.View(), r) == Perform(old(db.View()), PlanSetPrimaryPrefix(old(db.View()), orgId, isOwner, id))
    {
      if !isOwner { return Err(Forbidden); }
      if !OwnedPrefix(db.prefixes, orgId, id) { return Err(NotFound); }
      if db.prefixes[id].status != Approved { return Err(Unprocessable); }
      r := Commit(db, SetPrimaryPrefix(orgId, id), Unprocessable);
    }

    method Delete(orgId: int, isOwner: bool, id: int) returns (r: Result<int>)
      requires db.Valid()
      modifies db
      ensures db.Valid()
      ensures (db.View(), r) == Perform(old(db.View()), PlanDeletePrefix(old(db.View()), orgId, isOwner, id))
    {
      if !isOwner { return Err(Forbidden); }
      if !OwnedPrefix(db.prefixes, orgId, id) { return Err(NotFound); }
      if db.prefixes[id].status == Revoked { return Err(Conflict); }
      r := Commit(db, DeletePrefix(orgId, id), Conflict);
    }

    method Decide(id: int, d: Decision, reason: string) returns (r: Result<int>)
      requires db.Valid()
      modifies db
      ensures db.Valid()
      ensures (db.View(), r) == Perform(old(db.View()), PlanDecide(old(db.View()), id, d, reason))
    {
      var trimmed := TrimSpace(reason);
      if !d.Approve? && trimmed == "" { return Err(Unprocessable); }
      if |trimmed| > MAX_REASON_LENGTH { return Err(Unprocessable); }
      if id !in db.prefixes { return Err(NotFound); }
      r := Commit(db, DecidePrefix(id, d), Conflict);
    }

    method Release(id: int) returns (r: Result<int>)
      requires db.Valid()
      modifies db
      ensures db.Valid()
      ensures (db.View(), r) == Perform(old(db.View()), PlanRelease(old(db.View()), id))
    {
      if id !in db.prefixes { return Err(NotFound); }
      r := Commit(db, ReleasePrefix(id), Conflict);
    }
  }
}
