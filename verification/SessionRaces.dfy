/** What is left of the membership and invite facts when a call's write runs late,
    after other calls. */
module SessionRaces {
  import opened Common
  import opened Sessions
  import opened SessionSafety

  // -------------------------------------------------------------- sole owners

  ghost predicate IsOwner(d: Directory, k: (int, int)) {
    k in d.members && d.members[k].role == Owner
  }

  /** No org has two owners: nothing but its creation makes one. */
  ghost predicate OneOwner(d: Directory) {
    forall a, b | IsOwner(d, a) && IsOwner(d, b) && a.0 == b.0 :: a == b
  }

  /** The owners of an existing org were its owners before. */
  ghost predicate NoNewOwners(d: Directory, d': Directory) {
    forall k | IsOwner(d', k) && k.0 in d.orgs :: IsOwner(d, k)
  }

  lemma StepOwners(d: Directory, d': Directory)
    requires Linked(d) && MembersEntitled(d, d') && OneOwner(d)
    ensures OneOwner(d') && NoNewOwners(d, d')
  {
    forall k | IsOwner(d', k) && k !in d.members ensures SoleMember(d', k, d.nextOrg) {
      assert Entitled(d, d', k);
    }
  }

  lemma OwnersTrans(d: Directory, d1: Directory, d2: Directory)
    requires NoNewOwners(d, d1) && OwnersSettled(d, d1) && NoNewOwners(d1, d2)
    ensures NoNewOwners(d, d2)
  {
    forall k | IsOwner(d2, k) && k.0 in d.orgs ensures IsOwner(d, k) {
      assert Owners(d.members, k.0) != {} <==> Owners(d1.members, k.0) != {};
      assert IsOwner(d1, k);
    }
  }

  /** The state a run of calls leads to. */
  ghost predicate Leads(d: Directory, calls: seq<(Call, int)>, d': Directory) {
    d' == Run(d, calls)
  }

  lemma LeadsOn(d: Directory, calls: seq<(Call, int)>, d': Directory) returns (d1: Directory)
    requires Inv(d) && Leads(d, calls, d') && calls != []
    ensures Follows(d, d1) && Leads(d1, calls[1..], d')
  {
    d1 := Do(d, calls[0].0, calls[0].1).0;
    CallFollows(d, calls[0].0, calls[0].1);
  }

  lemma {:induction false} RunOwners(d: Directory, calls: seq<(Call, int)>, d': Directory)
    requires Inv(d) && OneOwner(d) && Leads(d, calls, d')
    ensures OneOwner(d') && NoNewOwners(d, d')
    decreases |calls|
  {
    if calls != [] {
      var d1 := LeadsOn(d, calls, d');
      StepOwners(d, d1);
      RunOwners(d1, calls[1..], d');
      OwnersTrans(d, d1, d');
    }
  }

  lemma LeadsKeeps(d: Directory, calls: seq<(Call, int)>, d': Directory)
    requires Inv(d) && Leads(d, calls, d')
    ensures Inv(d') && OwnersSettled(d, d')
  {
    RunKeeps(d, calls);
  }

  /** Over every run from the empty deployment no org ever has two owners, so that
      removing an owner is always refused, and each owner stays for good. */
  lemma OwnersStay(calls: seq<(Call, int)>, d: Directory, k: (int, int), more: seq<(Call, int)>, later: Directory)
    requires Leads(EMPTY, calls, d) && IsOwner(d, k) && Leads(d, more, later)
    ensures OneOwner(d) && IsOwner(later, k) && forall actor :: RemoveMember(d, k.0, actor, k.1).1.Err?
  {
    LeadsKeeps(EMPTY, calls, d);
    RunOwners(EMPTY, calls, d);
    LeadsKeeps(d, more, later);
    RunOwners(d, more, later);
    OwnerKept(d, later, k);
    RemovalRefused(d, k);
  }

  lemma OwnerKept(d: Directory, later: Directory, k: (int, int))
    requires IsOwner(d, k) && k.0 in d.orgs && OneOwner(d) && NoNewOwners(d, later) && OwnersSettled(d, later)
    ensures IsOwner(later, k)
  {
    assert k in Owners(d.members, k.0);
    var kept := Pick(Owners(later.members, k.0));
    assert IsOwner(later, kept) && IsOwner(d, kept);
  }

  lemma RemovalRefused(d: Directory, k: (int, int))
    requires OneOwner(d) && IsOwner(d, k)
    ensures forall actor :: RemoveMember(d, k.0, actor, k.1).1.Err?
  {
    SoleCount(d, k);
  }

  lemma SoleCount(d: Directory, k: (int, int))
    requires OneOwner(d) && IsOwner(d, k)
    ensures Owners(d.members, k.0) == {k} && |Owners(d.members, k.0)| == 1
  {
    forall other | other in Owners(d.members, k.0) ensures other == k {
      assert IsOwner(d, other);
    }
    assert Owners(d.members, k.0) == {k};
  }

  lemma RemovedIsNoOwner(d: Directory, orgId: int, actorId: int, targetId: int)
    requires Linked(d) && OneOwner(d) && RemoveMember(d, orgId, actorId, targetId).1.Ok?
    ensures !IsOwner(d, (orgId, targetId)) && orgId in d.orgs
  {
    if IsOwner(d, (orgId, targetId)) { SoleCount(d, (orgId, targetId)); }
  }

  lemma RemovalSettled(d: Directory, k: (int, int))
    requires !IsOwner(d, k)
    ensures OwnersSettled(d, d.(members := d.members - {k}))
  {
    forall o | o in d.orgs ensures Owners((d.members - {k}), o) == Owners(d.members, o) {
      assert k !in Owners(d.members, o);
    }
  }

  /** A removal that was decided long ago may run at any later time: no org loses or
      gains an owner by it. */
  lemma StaleRemovalSafe(calls: seq<(Call, int)>, d: Directory, orgId: int, actorId: int, targetId: int,
                         more: seq<(Call, int)>, later: Directory)
    requires Leads(EMPTY, calls, d) && RemoveMember(d, orgId, actorId, targetId).1.Ok? && Leads(d, more, later)
    ensures OwnersSettled(later, later.(members := later.members - {(orgId, targetId)}))
  {
    LeadsKeeps(EMPTY, calls, d);
    RunOwners(EMPTY, calls, d);
    RunOwners(d, more, later);
    RemovedIsNoOwner(d, orgId, actorId, targetId);
    RemovalSettled(later, (orgId, targetId));
  }

  // ---------------------------------------------------------- late invitations

  /** The insert of an invitation, whenever it runs. */
  function LateInvite(d: Directory, invite: Invite): Directory {
    d.(invites := d.invites + [invite])
  }

  lemma OnePendingIff(invites: seq<Invite>, invite: Invite)
    requires OnePending(invites) && invite.status == Pending
    ensures OnePending(invites + [invite]) <==> !HasPending(invites, invite.orgId, invite.email)
  {
    if HasPending(invites, invite.orgId, invite.email) {
      var i :| 0 <= i < |invites| && invites[i].orgId == invite.orgId &&
        EqualFold(invites[i].email, invite.email) && invites[i].status == Pending;
      assert BothPend(invites + [invite], i, |invites|);
    } else {
      OneMorePending(invites, invite);
    }
  }

  /** The invitation that a successful CreateInvite inserts. */
  function Invitation(orgId: int, rawEmail: string): Invite {
    Invite(orgId, Lower(TrimSpace(rawEmail)), Pending)
  }

  /** An invitation that was decided on one state and is inserted in a later one keeps
      the invariant there if and only if no invite of that org and e-mail is pending
      when it runs. */
  lemma LateInviteIff(calls: seq<(Call, int)>, d: Directory, orgId: int, actorId: int, rawEmail: string,
                      more: seq<(Call, int)>, later: Directory)
    requires Leads(EMPTY, calls, d) && CreateInvite(d, orgId, actorId, rawEmail, Allow).1.Ok? && Leads(d, more, later)
    ensures
      var invite := Invitation(orgId, rawEmail);
      Inv(LateInvite(later, invite)) <==> !HasPending(later.invites, orgId, invite.email)
  {
    LeadsKeeps(EMPTY, calls, d);
    LeadsKeeps(d, more, later);
    assert orgId in d.orgs;
    assert Owners(d.members, orgId) != {} <==> Owners(later.members, orgId) != {};
    OnePendingIff(later.invites, Invitation(orgId, rawEmail));
    LateInviteInv(later, Invitation(orgId, rawEmail));
  }

  lemma LateInviteInv(d: Directory, invite: Invite)
    requires Inv(d) && invite.orgId in d.orgs
    ensures Inv(LateInvite(d, invite)) <==> OnePending(d.invites + [invite])
  {
  }

  /** So one pending invite per org and email does need atomic calls: of two
      invitations decided on one state, the one that is written last breaks it. */
  lemma InvitesNeedAtomicity(d: Directory, orgId: int, one: int, oneEmail: string, two: int, twoEmail: string)
    requires CreateInvite(d, orgId, one, oneEmail, Allow).1.Ok? && CreateInvite(d, orgId, two, twoEmail, Allow).1.Ok?
    requires EqualFold(Lower(TrimSpace(oneEmail)), Lower(TrimSpace(twoEmail)))
    ensures
      var later := CreateInvite(d, orgId, one, oneEmail, Allow).0;
      !OnePending(LateInvite(later, Invitation(orgId, twoEmail)).invites)
  {
    var later := CreateInvite(d, orgId, one, oneEmail, Allow).0;
    assert BothPend(LateInvite(later, Invitation(orgId, twoEmail)).invites, |d.invites|, |d.invites| + 1);
  }

  // --------------------------------------------------------- late status writes

  /** SetStatus, which does not look at the status it overwrites. */
  function SetStatus(d: Directory, i: int, status: InviteStatus): Directory
    requires 0 <= i < |d.invites|
  {
    d.(invites := d.invites[i := d.invites[i].(status := status)])
  }

  /** A status write that runs late leaves settled invites alone if and only if it
      finds its invite pending, or as it would write it. */
  lemma LateStatusIff(d: Directory, i: int, status: InviteStatus)
    requires 0 <= i < |d.invites| && status != Pending
    ensures InvitesSettled(d, SetStatus(d, i, status)) <==>
            d.invites[i].status == Pending || d.invites[i].status == status
  {
    var d' := SetStatus(d, i, status);
    assert d'.invites[i].status == status;
    if InvitesSettled(d, d') { assert InviteSettled(d, d', i); }
  }

  /** Whatever it finds, it never makes a second invite pending. */
  lemma LateStatusOnePending(d: Directory, i: int, status: InviteStatus)
    requires 0 <= i < |d.invites| && status != Pending && OnePending(d.invites)
    ensures OnePending(SetStatus(d, i, status).invites)
  {
    var invites := SetStatus(d, i, status).invites;
    forall a, b | BothPend(invites, a, b) ensures a == b {
      assert BothPend(d.invites, a, b);
    }
  }

  /** An acceptance that runs after a revocation undoes it, and the other way round. */
  lemma StatusesNeedAtomicity(d: Directory, orgId: int, actorId: int, i: int)
    requires RevokeInvite(d, orgId, actorId, i).1.Ok?
    ensures
      var revoked, accepted := RevokeInvite(d, orgId, actorId, i).0, SetStatus(d, i, Accepted);
      !InvitesSettled(revoked, SetStatus(revoked, i, Accepted)) &&
      !InvitesSettled(accepted, SetStatus(accepted, i, Revoked))
  {
    LateStatusIff(RevokeInvite(d, orgId, actorId, i).0, i, Accepted);
    LateStatusIff(SetStatus(d, i, Accepted), i, Revoked);
  }

  // --------------------------------------------------- a deployment that gets there

  /** A state in which an invitation succeeds is reached from the empty deployment, by
      a login and a creation. */
  lemma InviteRaceReachable(a: Answers)
    ensures exists calls, d, orgId, actor, email ::
      Leads(EMPTY, calls, d) && CreateInvite(d, orgId, actor, email, Allow).1.Ok?
  {
    var calls := OrgReached(a);
    SecondUser(Email('a', 'b'), 'o', 'c', 'd', 0);
  }

  lemma OrgReached(a: Answers) returns (calls: seq<(Call, int)>)
    ensures Leads(EMPTY, calls, OneOrg(Email('a', 'b'), 'o', 0))
    ensures !EqualFold(Email('a', 'b'), Email('c', 'd'))
  {
    FirstLogin(a, 'a', 'b', 0);
    FirstOrg(Email('a', 'b'), 'o', 0);
    calls := TwoCalls(LoginCall(Email('a', 'b'), a), CreateCall(1, ['o'], "", Allow, Some(['o']), false),
                      OneUser(Email('a', 'b')), OneOrg(Email('a', 'b'), 'o', 0), 0);
    assert Lower(Email('a', 'b'))[0] != Lower(Email('c', 'd'))[0];
  }

  /** A state in which an owner may revoke an invite that its user's login would accept
      is reached too. */
  lemma StatusRaceReachable(a: Answers)
    requires a.policy(1) == Allow && !a.addFails(1) && !a.setFails(0)
    ensures exists calls, d, orgId, actor, i, email, now ::
      Leads(EMPTY, calls, d) && RevokeInvite(d, orgId, actor, i).1.Ok? &&
      |Do(d, LoginCall(email, a), now).0.invites| == |d.invites| &&
      Do(d, LoginCall(email, a), now).0.invites[i].status == Accepted
  {
    var calls := OrgReached(a);
    var org, email := OneOrg(Email('a', 'b'), 'o', 0), Email('c', 'd');
    SecondUser(Email('a', 'b'), 'o', 'c', 'd', 0);
    var invited := LateInvite(org, Invite(1, email, Pending));
    var more := OneMoreCall(calls, org, InviteCall(1, 1, email, Allow), invited, 0);
    InviteeLogin(org, invited, email, 'c', 'd', a, 0);
    assert Leads(EMPTY, more, invited) && RevokeInvite(invited, 1, 1, 0).1.Ok?;
  }

  lemma {:induction false} RunSnoc(d: Directory, calls: seq<(Call, int)>, c: Call, now: int)
    ensures Run(d, calls + [(c, now)]) == Do(Run(d, calls), c, now).0
    decreases |calls|
  {
    var last: seq<(Call, int)> := [(c, now)];
    if calls == [] {
      assert calls + last == last && |last[1..]| == 0;
    } else {
      assert (calls + last)[1..] == calls[1..] + last;
      RunSnoc(Do(d, calls[0].0, calls[0].1).0, calls[1..], c, now);
    }
  }

  lemma OneMoreCall(calls: seq<(Call, int)>, d: Directory, c: Call, d': Directory, now: int)
    returns (more: seq<(Call, int)>)
    requires Leads(EMPTY, calls, d) && Do(d, c, now).0 == d'
    ensures Leads(EMPTY, more, d')
  {
    more := calls + [(c, now)];
    RunSnoc(EMPTY, calls, c, now);
  }

  /** The first login of a user with one invite accepts it. */
  lemma InviteeLogin(org: Directory, d: Directory, email: string, local: char, domain: char, a: Answers, now: int)
    requires org.invites == [] && d == LateInvite(org, Invite(1, email, Pending)) && UserByEmail(org.users, email).None?
    requires PlainChar(local) && PlainChar(domain) && email == Email(local, domain) && (1, org.nextUser) !in org.members
    requires a.policy(1) == Allow && !a.addFails(1) && !a.setFails(0)
    ensures
      var d' := Do(d, LoginCall(email, a), now).0;
      |d'.invites| == 1 && d'.invites[0].status == Accepted
  {
    EmailPlain(local, domain);
    var (d0, userId) := Provision(d, email);
    assert d0.invites == [Invite(1, email, Pending)];
    FirstPending(d0.invites[0]);
    var (d1, joined) := AcceptPending(d0, userId, email, a, now);
    OneRound(d0, userId, a, now);
    assert Land(d1, userId, [domain], joined.value, a, now).0.invites == d1.invites;
  }

  lemma FirstPending(invite: Invite)
    requires invite.status == Pending
    ensures PendingFor([invite], invite.email) == [0]
  {
    assert [invite][..0] == [];
  }

  lemma OneRound(d: Directory, userId: int, a: Answers, now: int)
    requires |d.invites| == 1 && (d.invites[0].orgId, userId) !in d.members
    requires a.policy(d.invites[0].orgId) == Allow && !a.addFails(d.invites[0].orgId) && !a.setFails(0)
    ensures
      var (d', r) := AcceptAll(d, userId, [0], a, now);
      r.Ok? && |d'.invites| == 1 && d'.invites[0].status == Accepted
  {
    var none: seq<int> := [];
    assert [0][1..] == none;
  }

  lemma TwoCalls(one: Call, two: Call, d1: Directory, d2: Directory, now: int) returns (calls: seq<(Call, int)>)
    requires Do(EMPTY, one, now).0 == d1 && Do(d1, two, now).0 == d2
    ensures Leads(EMPTY, calls, d2)
  {
    var none: seq<(Call, int)> := [];
    calls := OneMoreCall(none, EMPTY, one, d1, now);
    calls := OneMoreCall(calls, d1, two, d2, now);
  }

  /** Lower-case text that trimming leaves alone. */
  predicate PlainChar(c: char) { 'a' <= c <= 'z' }

  function Email(local: char, domain: char): string { [local, '@', domain] }

  function OneUser(email: string): Directory {
    Directory(map[], 1, map[1 := User(email, true)], 2, map[], [])
  }

  function OneOrg(email: string, name: char, now: int): Directory {
    Directory(map[1 := Org([name], [name], None)], 2, map[1 := User(email, true)], 2,
              map[(1, 1) := Membership(Owner, now)], [])
  }

  lemma EmailPlain(local: char, domain: char)
    requires PlainChar(local) && PlainChar(domain)
    ensures Lower(TrimSpace(Email(local, domain))) == Email(local, domain)
    ensures SplitEmail(Email(local, domain)) == Some(([local], [domain]))
  {
    var s := Email(local, domain);
    TrimClean(s, IsSpace);
    assert s[1] == '@' && s[1] in s && s[0] != '@' && s[2] != '@';
    assert s[..1] == [local] && s[2..] == [domain];
  }

  lemma FirstLogin(a: Answers, local: char, domain: char, now: int)
    requires PlainChar(local) && PlainChar(domain)
    ensures Do(EMPTY, LoginCall(Email(local, domain), a), now).0 == OneUser(Email(local, domain))
  {
    EmailPlain(local, domain);
  }

  lemma FirstOrg(email: string, name: char, now: int)
    requires PlainChar(name)
    ensures Do(OneUser(email), CreateCall(1, [name], "", Allow, Some([name]), false), now).0 == OneOrg(email, name, now)
  {
    TrimClean([name], IsSpace);
    assert Slugs(OneUser(email).orgs) == {};
    assert NormalizeDomain("") == Ok(None);
  }

  lemma SecondUser(email: string, name: char, local: char, domain: char, now: int)
    requires PlainChar(local) && PlainChar(domain) && !EqualFold(email, Email(local, domain))
    ensures CreateInvite(OneOrg(email, name, now), 1, 1, Email(local, domain), Allow).1.Ok?
    ensures CreateInvite(OneOrg(email, name, now), 1, 1, Email(local, domain), Allow).0 ==
            LateInvite(OneOrg(email, name, now), Invite(1, Email(local, domain), Pending))
    ensures UserByEmail(OneOrg(email, name, now).users, Email(local, domain)).None?
  {
    EmailPlain(local, domain);
    assert forall id :: !HasEmail(OneOrg(email, name, now).users, id, Email(local, domain));
  }
}
