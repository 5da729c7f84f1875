/** The auth and org services over the directory's tables, updated in place. */
module Accounts {
  import opened Common
  import opened Sessions
  import opened SessionSafety
  import Slug

  /** A result after the orgs already joined. */
  function After(joined: seq<int>, rest: (Directory, Result<seq<int>>)): (Directory, Result<seq<int>>) {
    (rest.0, if rest.1.Ok? then Ok(joined + rest.1.value) else rest.1)
  }

  /** The round over ids that began in `was` still has d and ids[k..] to go. */
  ghost predicate Halfway(was: Directory, d: Directory, userId: int, ids: seq<int>, k: nat, joined: seq<int>,
                          a: Answers, now: int) {
    InRange(ids, |was.invites|) && |d.invites| == |was.invites| && k <= |ids| &&
    AcceptAll(was, userId, ids, a, now) == After(joined, AcceptAll(d, userId, ids[k..], a, now))
  }

  lemma RoundStarts(d: Directory, userId: int, ids: seq<int>, a: Answers, now: int)
    requires InRange(ids, |d.invites|)
    ensures Halfway(d, d, userId, ids, 0, [], a, now)
  {
    assert ids[0..] == ids;
    var r := AcceptAll(d, userId, ids, a, now).1;
    if r.Ok? { assert [] + r.value == r.value; }
  }

  /** The org that a round's next invite joins, if it does. */
  function JoinsNow(d: Directory, userId: int, i: int, a: Answers): seq<int>
    requires 0 <= i < |d.invites|
  {
    var orgId := d.invites[i].orgId;
    if (orgId, userId) !in d.members && a.policy(orgId) == Allow then [orgId] else []
  }

  lemma RoundStep(was: Directory, d: Directory, userId: int, ids: seq<int>, k: nat, joined: seq<int>, a: Answers,
                  now: int)
    requires Halfway(was, d, userId, ids, k, joined, a, now) && k < |ids|
    ensures
      var d' := AcceptOne(d, userId, ids[k], a, now);
      if Stops(d, userId, ids[k], a) then AcceptAll(was, userId, ids, a, now) == (d', Err(Internal))
      else Halfway(was, d', userId, ids, k + 1, joined + JoinsNow(d, userId, ids[k], a), a, now)
  {
    assert ids[k..][0] == ids[k] && ids[k..][1..] == ids[k + 1..];
    var r := AcceptAll(AcceptOne(d, userId, ids[k], a, now), userId, ids[k + 1..], a, now).1;
    if r.Ok? {
      var now' := JoinsNow(d, userId, ids[k], a);
      assert joined + (now' + r.value) == (joined + now') + r.value;
      assert [] + r.value == r.value;
    }
  }

  lemma RoundEnds(was: Directory, d: Directory, userId: int, ids: seq<int>, joined: seq<int>, a: Answers, now: int)
    requires Halfway(was, d, userId, ids, |ids|, joined, a, now)
    ensures AcceptAll(was, userId, ids, a, now) == (d, Ok(joined))
  {
    assert joined + [] == joined;
  }

  /** The listing so far, and the orgs still to list. */
  ghost predicate Listed(members: map<(int, int), Membership>, userId: int, r: seq<int>, rest: set<int>) {
    Joined(members, userId, rest) && Listing(members, userId) == r + Ordered(members, userId, rest)
  }

  lemma RoundInv(d: Directory, userId: int, email: string, a: Answers, now: int)
    requires Inv(d) && HasEmail(d.users, userId, email)
    ensures Inv(AcceptPending(d, userId, email, a, now).0)
  {
    RoundFollows(d, userId, email, a, now);
  }

  lemma LoginInv(d: Directory, rawEmail: string, a: Answers, now: int)
    requires Inv(d)
    ensures Inv(Sessions.Login(d, rawEmail, a, now).0)
  {
    LoginFollows(d, rawEmail, a, now);
  }

  lemma CreateInviteInv(d: Directory, orgId: int, actorId: int, rawEmail: string, policy: Policy)
    requires Inv(d)
    ensures Inv(Sessions.CreateInvite(d, orgId, actorId, rawEmail, policy).0)
  {
    CreateInviteFollows(d, orgId, actorId, rawEmail, policy);
  }

  lemma CreateInv(d: Directory, creatorId: int, name: string, domain: string, policy: Policy, slug: Option<string>,
                  addFails: bool, now: int)
    requires Inv(d)
    ensures Inv(Sessions.CreateOrg(d, creatorId, name, domain, policy, slug, addFails, now).0)
  {
    CreateFollows(d, creatorId, name, domain, policy, slug, addFails, now);
  }

  class AccountService {
    var orgs: map<int, Org>
    var nextOrg: int
    var users: map<int, User>
    var nextUser: int
    var members: map<(int, int), Membership>
    var invites: seq<Invite>

    constructor ()
      ensures Valid() && View() == EMPTY
    {
      orgs, nextOrg, users, nextUser, members, invites := map[], 1, map[], 1, map[], [];
    }

    function View(): Directory
      reads this
    {
      Directory(orgs, nextOrg, users, nextUser, members, invites)
    }

    ghost predicate Valid()
      reads this
    {
      Inv(View())
    }

    // ----------------------------------------------------------------- queries

    method FindUser(email: string) returns (r: Option<int>)
      requires Valid()
      ensures r == UserByEmail(users, email)
    {
      for id := 1 to nextUser
        invariant forall u :: HasEmail(users, u, email) ==> id <= u
      {
        if HasEmail(users, id, email) { return Some(id); }
      }
      return None;
    }

    method FindAutoJoinOrg(domain: string) returns (r: Option<int>)
      requires Valid()
      ensures r == AutoJoinOrg(orgs, domain)
    {
      for id := 1 to nextOrg
        invariant forall o :: JoinsBy(orgs, o, domain) ==> id <= o
      {
        if JoinsBy(orgs, id, domain) {
          assert FirstJoinable(orgs, id, domain);
          return Some(id);
        }
      }
      return None;
    }

    method FirstJoined(userId: int, among: set<int>) returns (first: int)
      requires Valid() && Joined(members, userId, among) && among != {}
      ensures Earliest(members, userId, among, first)
    {
      var best: Option<int> := None;
      for id := 1 to nextOrg
        invariant best.Some? ==> best.value in among
        invariant best.Some? ==> forall o :: o in among && o < id ==> Before(members, userId, best.value, o)
        invariant best.None? ==> forall o :: o in among ==> id <= o
      {
        if id in among && (best.None? || !Before(members, userId, best.value, id)) { best := Some(id); }
      }
      ghost var some := Pick(among);
      first := best.value;
    }

    method ListOrgsForUser(userId: int) returns (r: seq<int>)
      requires Valid()
      ensures r == Listing(members, userId)
    {
      var rest := OrgsOf(members, userId);
      r := [];
      while rest != {}
        invariant Listed(members, userId, r, rest)
        decreases rest
      {
        var first := FirstJoined(userId, rest);
        r, rest := r + [first], rest - {first};
      }
    }

    // ---------------------------------------------------------------- sessions

    method AcceptPendingInvites(userId: int, email: string, a: Answers, now: int) returns (r: Result<seq<int>>)
      modifies this
      ensures (View(), r) == AcceptPending(old(View()), userId, email, a, now)
    {
      ghost var was := View();
      var pending := PendingFor(invites, email);
      var joined := [];
      RoundStarts(was, userId, pending, a, now);
      for k := 0 to |pending|
        invariant Halfway(was, View(), userId, pending, k, joined, a, now)
      {
        RoundStep(was, View(), userId, pending, k, joined, a, now);
        var orgId := invites[pending[k]].orgId;
        if (orgId, userId) !in members {
          var added := JoinAsMember(orgId, userId, a.policy(orgId), a.addFails(orgId), now);
          if added.Err? { return Err(added.error); }
          if !added.value { continue; }
          joined := joined + [orgId];
        }
        if a.setFails(pending[k]) { return Err(Internal); }
        invites := invites[pending[k] := invites[pending[k]].(status := Accepted)];
      }
      RoundEnds(was, View(), userId, pending, joined, a, now);
      return Ok(joined);
    }

    /** The one place on the login path that creates memberships; false when the
        policy denies. */
    method JoinAsMember(orgId: int, userId: int, answer: Policy, addFails: bool, now: int) returns (r: Result<bool>)
      modifies this`members
      ensures r == match answer
                   case Deny => Ok(false)
                   case Broken => Err(Internal)
                   case Allow => if addFails then Err(Internal) else Ok(true)
      ensures View() == if r == Ok(true) then Join(old(View()), orgId, userId, now) else old(View())
    {
      match answer
      case Deny => return Ok(false);
      case Broken => return Err(Internal);
      case Allow =>
      if addFails { return Err(Internal); }
      members := members[(orgId, userId) := Membership(Member, now)];
      return Ok(true);
    }

    method AutoJoinByDomain(userId: int, domain: string, a: Answers, now: int) returns (r: Result<Option<int>>)
      requires Valid()
      modifies this`members
      ensures
        var auto := AutoJoinOrg(orgs, domain);
        r == (if auto.None? || a.autoPolicy.Deny? then Ok(None)
              else if a.autoPolicy.Broken? || a.addFails(auto.value) then Err(Internal)
              else Ok(auto)) &&
        View() == (if r.Ok? && r.value.Some? then Join(old(View()), auto.value, userId, now) else old(View()))
    {
      var org := FindAutoJoinOrg(domain);
      if org.None? { return Ok(None); }
      var joined := JoinAsMember(org.value, userId, a.autoPolicy, a.addFails(org.value), now);
      if joined.Err? { return Err(joined.error); }
      if !joined.value { return Ok(None); }
      return Ok(org);
    }

    method Login(rawEmail: string, a: Answers, now: int) returns (r: Result<Token>)
      requires Valid()
      modifies this
      ensures Valid()
      ensures (View(), r) == Sessions.Login(old(View()), rawEmail, a, now)
    {
      LoginInv(View(), rawEmail, a, now);
      var email := Lower(TrimSpace(rawEmail));
      var parts := SplitEmail(email);
      if parts.None? || parts.value.0 == "" || parts.value.1 == "" { return Err(Unauthorized); }
      var userId := Provision(email);
      r := Enter(userId, email, parts.value.1, a, now);
    }

    method Provision(email: string) returns (userId: int)
      requires Valid()
      modifies this
      ensures Valid() && HasEmail(users, userId, email)
      ensures (View(), userId) == Sessions.Provision(old(View()), email)
    {
      ProvisionFollows(View(), email);
      var user := FindUser(email);
      if user.Some? { return user.value; }
      userId := nextUser;
      users, nextUser := users[userId := User(email, true)], nextUser + 1;
    }

    method Enter(userId: int, email: string, domain: string, a: Answers, now: int) returns (r: Result<Token>)
      requires Valid() && HasEmail(users, userId, email)
      modifies this
      ensures (View(), r) == Sessions.Enter(old(View()), userId, email, domain, a, now)
    {
      RoundInv(View(), userId, email, a, now);
      var joined := AcceptPendingInvites(userId, email, a, now);
      if joined.Err? { return Err(joined.error); }
      r := Land(userId, domain, joined.value, a, now);
    }

    method Land(userId: int, domain: string, joined: seq<int>, a: Answers, now: int) returns (r: Result<Token>)
      requires Valid()
      modifies this
      ensures (View(), r) == Sessions.Land(old(View()), userId, domain, joined, a, now)
    {
      var list := ListOrgsForUser(userId);
      if list == [] {
        var auto := AutoJoinByDomain(userId, domain, a, now);
        if auto.Err? { return Err(auto.error); }
        if auto.value.None? { return Ok(Token(userId, 0, None)); }
        return Ok(Token(userId, auto.value.value, Some(Member)));
      }
      r := BuildAuthResult(userId, list, joined);
    }

    method BuildAuthResult(userId: int, list: seq<int>, joined: seq<int>) returns (r: Result<Token>)
      requires list != []
      ensures
        var active := if joined != [] && joined[|joined| - 1] in list then joined[|joined| - 1] else list[0];
        r == Ok(Token(userId, active, RoleOf(members, active, userId)))
    {
      var active := list[0];
      if joined != [] {
        for k := 0 to |list|
          invariant active == if joined[|joined| - 1] in list[..k] then joined[|joined| - 1] else list[0]
        {
          assert list[..k + 1] == list[..k] + [list[k]];
          if list[k] == joined[|joined| - 1] { active := list[k]; }
        }
        assert list[..|list|] == list;
      }
      return Ok(Token(userId, active, RoleOf(members, active, userId)));
    }

    method Refresh(claims: Token, a: Answers, now: int) returns (r: Result<Token>)
      requires Valid()
      modifies this
      ensures Valid()
      ensures (View(), r) == Sessions.Refresh(old(View()), claims, a, now)
    {
      var userId := claims.userId;
      if userId !in users || !users[userId].enabled { return Err(Unauthorized); }
      RoundInv(View(), userId, users[userId].email, a, now);
      var joined := AcceptPendingInvites(userId, users[userId].email, a, now);
      if joined.Err? { return Err(joined.error); }
      var orgId, role := 0, None;
      if claims.orgId > 0 {
        role := RoleOf(members, claims.orgId, userId);
        if role.Some? { orgId := claims.orgId; }
      }
      if orgId == 0 && joined.value != [] {
        orgId, role := joined.value[|joined.value| - 1], Some(Member);
      }
      return Ok(Token(userId, orgId, role));
    }

    method SwitchOrg(userId: int, orgId: int) returns (r: Result<Token>)
      ensures r == Sessions.SwitchOrg(View(), userId, orgId)
    {
      var role := RoleOf(members, orgId, userId);
      if role.None? { return Err(Forbidden); }
      return Ok(Token(userId, orgId, role));
    }

    // ---------------------------------------------------------- org management

    /** Also returns the slug it derived, if it came that far. */
    method CreateOrg(creatorId: int, rawName: string, rawDomain: string, policy: Policy, lower: char -> char,
                     addFails: bool, now: int)
      returns (r: Result<int>, slug: Option<string>)
      requires Valid()
      modifies this
      ensures Valid()
      ensures (View(), r) == Sessions.CreateOrg(old(View()), creatorId, rawName, rawDomain, policy, slug, addFails, now)
      ensures slug.Some? ==> slug.value !in Slugs(old(orgs))
    {
      slug := None;
      var name := TrimSpace(rawName);
      if name == "" { return Err(Unprocessable), None; }
      var auto := NormalizeDomain(rawDomain);
      if auto.Err? { return Err(auto.error), None; }
      match policy
      case Deny => return Err(LimitReached), None;
      case Broken => return Err(Internal), None;
      case Allow =>
      var found := Slug.UniqueSlug(name, lower, Slugs(orgs));
      if found.Err? { return Err(Conflict), None; }
      slug := Some(found.value);
      CreateInv(View(), creatorId, rawName, rawDomain, policy, slug, addFails, now);
      r := InsertOwned(Org(name, found.value, auto.value), creatorId, addFails, now);
    }

    /** Two inserts, the second of which may fail. */
    method InsertOwned(org: Org, creatorId: int, addFails: bool, now: int) returns (r: Result<int>)
      modifies this
      ensures
        var fails := addFails || creatorId !in old(users);
        View() == AddOrg(old(View()), org, if fails then None else Some(creatorId), now) &&
        r == if fails then Err(Internal) else Ok(old(nextOrg))
    {
      var id := nextOrg;
      orgs, nextOrg := orgs[id := org], nextOrg + 1;
      if addFails || creatorId !in users { return Err(Internal); }
      members := members[(id, creatorId) := Membership(Owner, now)];
      return Ok(id);
    }

    method RemoveMember(orgId: int, actorId: int, targetId: int) returns (r: Result<int>)
      requires Valid()
      modifies this
      ensures Valid()
      ensures (View(), r) == Sessions.RemoveMember(old(View()), orgId, actorId, targetId)
    {
      RemoveFollows(View(), orgId, actorId, targetId);
      if RoleOf(members, orgId, actorId) != Some(Owner) { return Err(Forbidden); }
      var role := RoleOf(members, orgId, targetId);
      if role.None? { return Err(NotFound); }
      if role == Some(Owner) {
        var owners := |Owners(members, orgId)|;
        if owners <= 1 { return Err(Unprocessable); }
      }
      members := members - {(orgId, targetId)};
      return Ok(targetId);
    }

    method FindPending(orgId: int, email: string) returns (r: bool)
      ensures r <==> HasPending(invites, orgId, email)
    {
      for i := 0 to |invites|
        invariant !HasPending(invites[..i], orgId, email)
      {
        var invite := invites[i];
        if invite.orgId == orgId && EqualFold(invite.email, email) && invite.status == Pending { return true; }
      }
      assert invites[..|invites|] == invites;
      return false;
    }

    method CreateInvite(orgId: int, actorId: int, rawEmail: string, policy: Policy) returns (r: Result<int>)
      requires Valid()
      modifies this
      ensures Valid()
      ensures (View(), r) == Sessions.CreateInvite(old(View()), orgId, actorId, rawEmail, policy)
    {
      CreateInviteInv(View(), orgId, actorId, rawEmail, policy);
      if RoleOf(members, orgId, actorId) != Some(Owner) { return Err(Forbidden); }
      var email := Lower(TrimSpace(rawEmail));
      var parts := SplitEmail(email);
      if parts.None? || parts.value.0 == "" || parts.value.1 == "" { return Err(Unprocessable); }
      match policy
      case Deny => return Err(LimitReached);
      case Broken => return Err(Internal);
      case Allow =>
      var user := FindUser(email);
      if user.Some? && RoleOf(members, orgId, user.value).Some? { return Err(Conflict); }
      var pending := FindPending(orgId, email);
      if pending { return Err(Conflict); }
      invites := invites + [Invite(orgId, email, Pending)];
      return Ok(|invites| - 1);
    }

    method RevokeInvite(orgId: int, actorId: int, i: int) returns (r: Result<int>)
      requires Valid()
      modifies this
      ensures Valid()
      ensures (View(), r) == Sessions.RevokeInvite(old(View()), orgId, actorId, i)
    {
      RevokeFollows(View(), orgId, actorId, i);
      if RoleOf(members, orgId, actorId) != Some(Owner) { return Err(Forbidden); }
      if i < 0 || |invites| <= i || invites[i].orgId != orgId { return Err(NotFound); }
      if invites[i].status != Pending { return Err(Conflict); }
      invites := invites[i := invites[i].(status := Revoked)];
      return Ok(i);
    }
  }
}
