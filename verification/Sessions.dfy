/** Orgs, memberships, invites, and the session tokens issued on them. */
module Sessions {
  import opened Common

  datatype Role = Owner | Member

  datatype Membership = Membership(role: Role, joinedAt: int)

  datatype Org = Org(name: string, slug: string, autoJoin: Option<string>)

  datatype User = User(email: string, enabled: bool)

  datatype InviteStatus = Pending | Accepted | Revoked

  datatype Invite = Invite(orgId: int, email: string, status: InviteStatus)

  /** A limits.Policy check. */
  datatype Policy = Allow | Deny | Broken

  /** What the outside answers during one round of accepting invites and the
      auto-join after it: the policy by org, the membership inserts by org and the
      invite updates by invite that fail, and the policy on the auto-join. */
  datatype Answers = Answers(policy: int -> Policy, addFails: int -> bool, setFails: int -> bool, autoPolicy: Policy)

  /** The tables; members is keyed by (org, user), invites are in creation order
      and an invite's id is its position. */
  datatype Directory = Directory(
    orgs: map<int, Org>, nextOrg: int,
    users: map<int, User>, nextUser: int,
    members: map<(int, int), Membership>,
    invites: seq<Invite>)

  const EMPTY := Directory(map[], 1, map[], 1, map[], [])

  /** A session: org 0 without a role is the valid org-less state. */
  datatype Token = Token(userId: int, orgId: int, role: Option<Role>)

  function RoleOf(members: map<(int, int), Membership>, orgId: int, userId: int): Option<Role> {
    if (orgId, userId) in members then Some(members[(orgId, userId)].role) else None
  }

  function Owners(members: map<(int, int), Membership>, orgId: int): set<(int, int)> {
    set k | k in members && k.0 == orgId && members[k].role == Owner
  }

  // ------------------------------------------------------------- identities

  /** splitEmail: None unless the text is local@domain. */
  function SplitEmail(email: string): Option<(string, string)> {
    var at := LastIndexOf(email, '@');
    if at <= 0 || at == |email| - 1 then None else Some((email[..at], email[at + 1..]))
  }

  predicate HasEmail(users: map<int, User>, id: int, email: string) {
    id in users && EqualFold(users[id].email, email)
  }

  ghost function UserByEmail(users: map<int, User>, email: string): (r: Option<int>)
    ensures r.Some? ==> HasEmail(users, r.value, email)
    ensures r.None? <==> forall id :: !HasEmail(users, id, email)
  {
    if exists id :: HasEmail(users, id, email) then
      var id :| HasEmail(users, id, email);
      Some(id)
    else None
  }

  predicate JoinsBy(orgs: map<int, Org>, id: int, domain: string) {
    id in orgs && orgs[id].autoJoin.Some? && EqualFold(orgs[id].autoJoin.value, domain)
  }

  ghost predicate FirstJoinable(orgs: map<int, Org>, id: int, domain: string) {
    JoinsBy(orgs, id, domain) && forall other :: JoinsBy(orgs, other, domain) ==> id <= other
  }

  /** The first org, by id, that the email domain joins automatically. */
  ghost function AutoJoinOrg(orgs: map<int, Org>, domain: string): Option<int> {
    if exists id :: FirstJoinable(orgs, id, domain) then
      var id :| FirstJoinable(orgs, id, domain);
      Some(id)
    else None
  }

  // --------------------------------------------------- a user's orgs, in order

  predicate Before(members: map<(int, int), Membership>, userId: int, a: int, b: int)
    requires (a, userId) in members && (b, userId) in members
  {
    var x, y := members[(a, userId)].joinedAt, members[(b, userId)].joinedAt;
    x < y || (x == y && a <= b)
  }

  ghost predicate Joined(members: map<(int, int), Membership>, userId: int, orgs: set<int>) {
    forall o :: o in orgs ==> (o, userId) in members
  }

  ghost predicate Earliest(members: map<(int, int), Membership>, userId: int, orgs: set<int>, o: int)
    requires Joined(members, userId, orgs)
  {
    o in orgs && forall p :: p in orgs ==> Before(members, userId, o, p)
  }

  lemma {:induction false} EarliestExists(members: map<(int, int), Membership>, userId: int, orgs: set<int>)
    requires Joined(members, userId, orgs) && orgs != {}
    ensures exists o :: Earliest(members, userId, orgs, o)
    decreases orgs
  {
    var x := Pick(orgs);
    var rest := orgs - {x};
    assert forall p :: p in orgs ==> p == x || p in rest;
    if rest == {} {
      assert Earliest(members, userId, orgs, x);
    } else {
      EarliestExists(members, userId, rest);
      var y :| Earliest(members, userId, rest, y);
      if Before(members, userId, x, y) {
        assert Earliest(members, userId, orgs, x);
      } else {
        assert Earliest(members, userId, orgs, y);
      }
    }
  }

  function OrgsOf(members: map<(int, int), Membership>, userId: int): set<int> {
    set k | k in members && k.1 == userId :: k.0
  }

  /** Each listed once, in the order of their memberships. */
  ghost predicate InJoinOrder(members: map<(int, int), Membership>, userId: int, list: seq<int>) {
    (forall i :: 0 <= i < |list| ==> (list[i], userId) in members) &&
    forall i, j :: 0 <= i < j < |list| ==> list[i] != list[j] && Before(members, userId, list[i], list[j])
  }

  /** ListOrgsForUser: ordered by join time, then org id. */
  ghost function Ordered(members: map<(int, int), Membership>, userId: int, orgs: set<int>): (r: seq<int>)
    requires Joined(members, userId, orgs)
    ensures forall o :: o in r <==> o in orgs
    decreases orgs
  {
    if orgs == {} then []
    else
      EarliestExists(members, userId, orgs);
      var first :| Earliest(members, userId, orgs, first);
      [first] + Ordered(members, userId, orgs - {first})
  }

  ghost function Listing(members: map<(int, int), Membership>, userId: int): (r: seq<int>)
    ensures forall o :: o in r <==> (o, userId) in members
  {
    Ordered(members, userId, OrgsOf(members, userId))
  }

  lemma OrderedPeels(members: map<(int, int), Membership>, userId: int, orgs: set<int>) returns (first: int)
    requires Joined(members, userId, orgs) && orgs != {}
    ensures Earliest(members, userId, orgs, first)
    ensures Ordered(members, userId, orgs) == [first] + Ordered(members, userId, orgs - {first})
  {
    first := Ordered(members, userId, orgs)[0];
  }

  lemma {:induction false} OrderedInOrder(members: map<(int, int), Membership>, userId: int, orgs: set<int>)
    requires Joined(members, userId, orgs)
    ensures InJoinOrder(members, userId, Ordered(members, userId, orgs))
    decreases orgs
  {
    if orgs != {} {
      var first := OrderedPeels(members, userId, orgs);
      var rest := Ordered(members, userId, orgs - {first});
      OrderedInOrder(members, userId, orgs - {first});
      forall i | 0 <= i < |rest|
        ensures (rest[i], userId) in members && rest[i] != first && Before(members, userId, first, rest[i])
      {
        assert rest[i] in rest;
      }
    }
  }

  /** The listing has each of the user's orgs once, in join order, then id order. */
  lemma ListingInOrder(members: map<(int, int), Membership>, userId: int)
    ensures InJoinOrder(members, userId, Listing(members, userId))
    ensures forall o :: o in Listing(members, userId) <==> (o, userId) in members
  {
    OrderedInOrder(members, userId, OrgsOf(members, userId));
  }

  // ------------------------------------------------------- accepting invites

  /** The positions of the email's pending invites, oldest first. */
  function PendingFor(invites: seq<Invite>, email: string): (r: seq<int>)
    ensures forall i ::
              i in r <==> 0 <= i < |invites| && invites[i].status == Pending && EqualFold(invites[i].email, email)
    ensures forall i, j :: 0 <= i < j < |r| ==> r[i] < r[j]
    ensures InRange(r, |invites|)
  {
    if invites == [] then []
    else
      var n := |invites| - 1;
      var rest := PendingFor(invites[..n], email);
      if invites[n].status == Pending && EqualFold(invites[n].email, email) then rest + [n] else rest
  }

  ghost predicate InRange(ids: seq<int>, n: nat) {
    forall i :: 0 <= i < |ids| ==> 0 <= ids[i] < n
  }

  function Join(d: Directory, orgId: int, userId: int, now: int): Directory {
    d.(members := d.members[(orgId, userId) := Membership(Member, now)])
  }

  function Accept(d: Directory, i: int): Directory
    requires 0 <= i < |d.invites|
  {
    d.(invites := d.invites[i := d.invites[i].(status := Accepted)])
  }

  /** acceptPendingInvites over the listed invites: the tables it leaves, and the
      orgs it joined or the error it stopped at. */
  function AcceptAll(d: Directory, userId: int, ids: seq<int>, a: Answers, now: int): (r: (Directory, Result<seq<int>>))
    requires InRange(ids, |d.invites|)
    ensures |r.0.invites| == |d.invites|
    decreases |ids|
  {
    if ids == [] then (d, Ok([]))
    else
      var i, orgId := ids[0], d.invites[ids[0]].orgId;
      if (orgId, userId) in d.members then
        if a.setFails(i) then (d, Err(Internal)) else AcceptAll(Accept(d, i), userId, ids[1..], a, now)
      else
        match a.policy(orgId)
        case Broken => (d, Err(Internal))
        case Deny => AcceptAll(d, userId, ids[1..], a, now)
        case Allow =>
          var joined := Join(d, orgId, userId, now);
          if a.addFails(orgId) then (d, Err(Internal))
          else if a.setFails(i) then (joined, Err(Internal))
          else
            var (d', r) := AcceptAll(Accept(joined, i), userId, ids[1..], a, now);
            (d', if r.Ok? then Ok([orgId] + r.value) else r)
  }

  function AcceptPending(d: Directory, userId: int, email: string, a: Answers, now: int)
    : (Directory, Result<seq<int>>)
  {
    AcceptAll(d, userId, PendingFor(d.invites, email), a, now)
  }

  // ----------------------------------------------------------------- sessions

  /** Where a login lands once its invites are settled: in the org just joined,
      else the user's first org, else the one the email's domain joins. */
  ghost function Land(d: Directory, userId: int, domain: string, joined: seq<int>, a: Answers, now: int)
    : (Directory, Result<Token>)
  {
    var orgs := Listing(d.members, userId);
    if orgs == [] then
      var auto := AutoJoinOrg(d.orgs, domain);
      if auto.None? then (d, Ok(Token(userId, 0, None)))
      else
        match a.autoPolicy
        case Broken => (d, Err(Internal))
        case Deny => (d, Ok(Token(userId, 0, None)))
        case Allow =>
          if a.addFails(auto.value) then (d, Err(Internal))
          else (Join(d, auto.value, userId, now), Ok(Token(userId, auto.value, Some(Member))))
    else
      var active := if joined != [] && joined[|joined| - 1] in orgs then joined[|joined| - 1] else orgs[0];
      (d, Ok(Token(userId, active, RoleOf(d.members, active, userId))))
  }

  ghost function Enter(d: Directory, userId: int, email: string, domain: string, a: Answers, now: int)
    : (Directory, Result<Token>)
  {
    var (d1, joined) := AcceptPending(d, userId, email, a, now);
    if joined.Err? then (d1, Err(joined.error)) else Land(d1, userId, domain, joined.value, a, now)
  }

  /** The email's user, created when there is none. */
  ghost function Provision(d: Directory, email: string): (Directory, int) {
    var user := UserByEmail(d.users, email);
    if user.Some? then (d, user.value)
    else (d.(users := d.users[d.nextUser := User(email, true)], nextUser := d.nextUser + 1), d.nextUser)
  }

  ghost function Login(d: Directory, rawEmail: string, a: Answers, now: int): (Directory, Result<Token>) {
    var email := Lower(TrimSpace(rawEmail));
    var parts := SplitEmail(email);
    if parts.None? || parts.value.0 == "" || parts.value.1 == "" then (d, Err(Unauthorized))
    else
      var (d0, userId) := Provision(d, email);
      Enter(d0, userId, email, parts.value.1, a, now)
  }

  function Refresh(d: Directory, claims: Token, a: Answers, now: int): (Directory, Result<Token>) {
    if claims.userId !in d.users || !d.users[claims.userId].enabled then (d, Err(Unauthorized))
    else
      var userId := claims.userId;
      var (d1, joined) := AcceptPending(d, userId, d.users[userId].email, a, now);
      if joined.Err? then (d1, Err(joined.error))
      else
        var role := if claims.orgId > 0 then RoleOf(d1.members, claims.orgId, userId) else None;
        var orgId := if role.Some? then claims.orgId else 0;
        if orgId == 0 && joined.value != []
        then (d1, Ok(Token(userId, joined.value[|joined.value| - 1], Some(Member))))
        else (d1, Ok(Token(userId, orgId, role)))
  }

  function SwitchOrg(d: Directory, userId: int, orgId: int): Result<Token> {
    var role := RoleOf(d.members, orgId, userId);
    if role.None? then Err(Forbidden) else Ok(Token(userId, orgId, role))
  }

  /** Me accepts pending invites too; its listing is not modelled further. */
  function Me(d: Directory, userId: int, a: Answers, now: int): (Directory, Result<int>) {
    if userId !in d.users then (d, Err(Unauthorized))
    else
      var (d1, joined) := AcceptPending(d, userId, d.users[userId].email, a, now);
      (d1, if joined.Err? then Err(joined.error) else Ok(userId))
  }

  // --------------------------------------------------------- org management

  function NormalizeDomain(domain: string): Result<Option<string>> {
    var d := Lower(TrimSpace(domain));
    if d == "" then Ok(None)
    else if (exists c | c in d :: c in "@/ \t") || '.' !in d then Err(Unprocessable)
    else Ok(Some(d))
  }

  /** The slug column. */
  function Slugs(orgs: map<int, Org>): set<string> {
    set o | o in orgs :: orgs[o].slug
  }

  /** The tables with a further org, and with its owner when there is one. */
  function AddOrg(d: Directory, org: Org, owner: Option<int>, now: int): Directory {
    d.(orgs := d.orgs[d.nextOrg := org], nextOrg := d.nextOrg + 1,
       members := if owner.None? then d.members else d.members[(d.nextOrg, owner.value) := Membership(Owner, now)])
  }

  /** Create, with the slug that uniqueSlug found (None when it found none). The
      org row and the owner's row are two inserts; the second may fail. */
  function CreateOrg(d: Directory, creatorId: int, name: string, domain: string, policy: Policy, slug: Option<string>,
                     addFails: bool, now: int): (Directory, Result<int>) {
    var name := TrimSpace(name);
    var auto := NormalizeDomain(domain);
    if name == "" then (d, Err(Unprocessable))
    else if auto.Err? then (d, Err(auto.error))
    else if policy.Deny? then (d, Err(LimitReached))
    else if policy.Broken? then (d, Err(Internal))
    else if slug.None? then (d, Err(Conflict))
    else if slug.value in Slugs(d.orgs) then (d, Err(Internal))
    else
      var org := Org(name, slug.value, auto.value);
      if addFails || creatorId !in d.users then (AddOrg(d, org, None, now), Err(Internal))
      else (AddOrg(d, org, Some(creatorId), now), Ok(d.nextOrg))
  }

  /** Update, for an absent name or domain that stays as it is. */
  function UpdateOrg(d: Directory, orgId: int, actorId: int, name: Option<string>,
                     domain: Option<string>): (Directory, Result<int>) {
    if RoleOf(d.members, orgId, actorId) != Some(Owner) then (d, Err(Forbidden))
    else if orgId !in d.orgs then (d, Err(NotFound))
    else if name.Some? && TrimSpace(name.value) == "" then (d, Err(Unprocessable))
    else
      var org := d.orgs[orgId];
      var auto := if domain.None? then Ok(org.autoJoin) else NormalizeDomain(domain.value);
      if auto.Err? then (d, Err(auto.error))
      else
        var name := if name.None? then org.name else TrimSpace(name.value);
        (d.(orgs := d.orgs[orgId := org.(name := name, autoJoin := auto.value)]), Ok(orgId))
  }

  function RemoveMember(d: Directory, orgId: int, actorId: int, targetId: int): (Directory, Result<int>) {
    var target := RoleOf(d.members, orgId, targetId);
    if RoleOf(d.members, orgId, actorId) != Some(Owner) then (d, Err(Forbidden))
    else if target.None? then (d, Err(NotFound))
    else if target == Some(Owner) && |Owners(d.members, orgId)| <= 1 then (d, Err(Unprocessable))
    else (d.(members := d.members - {(orgId, targetId)}), Ok(targetId))
  }

  ghost predicate HasPending(invites: seq<Invite>, orgId: int, email: string) {
    exists i ::
      0 <= i < |invites| && invites[i].orgId == orgId && EqualFold(invites[i].email, email) &&
      invites[i].status == Pending
  }

  ghost function CreateInvite(d: Directory, orgId: int, actorId: int, rawEmail: string, policy: Policy)
    : (Directory, Result<int>)
  {
    var email := Lower(TrimSpace(rawEmail));
    var parts := SplitEmail(email);
    if RoleOf(d.members, orgId, actorId) != Some(Owner) then (d, Err(Forbidden))
    else if parts.None? || parts.value.0 == "" || parts.value.1 == "" then (d, Err(Unprocessable))
    else if policy.Deny? then (d, Err(LimitReached))
    else if policy.Broken? then (d, Err(Internal))
    else
      var user := UserByEmail(d.users, email);
      if user.Some? && RoleOf(d.members, orgId, user.value).Some? then (d, Err(Conflict))
      else if HasPending(d.invites, orgId, email) then (d, Err(Conflict))
      else (d.(invites := d.invites + [Invite(orgId, email, Pending)]), Ok(|d.invites|))
  }

  function RevokeInvite(d: Directory, orgId: int, actorId: int, i: int): (Directory, Result<int>) {
    if RoleOf(d.members, orgId, actorId) != Some(Owner) then (d, Err(Forbidden))
    else if !(0 <= i < |d.invites|) || d.invites[i].orgId != orgId then (d, Err(NotFound))
    else if d.invites[i].status != Pending then (d, Err(Conflict))
    else (d.(invites := d.invites[i := d.invites[i].(status := Revoked)]), Ok(i))
  }
}
