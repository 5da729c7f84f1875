/** What the membership, invite and session protocol keeps over every run. */
module SessionSafety {
  import opened Common
  import opened Sessions

  // -------------------------------------------- one round of accepting invites

  /** A pending invite of the org for the email exists. */
  ghost predicate Invited(d: Directory, email: string, orgId: int) {
    exists i :: IsInvited(d, email, orgId, i)
  }

  ghost predicate IsInvited(d: Directory, email: string, orgId: int, i: int) {
    0 <= i < |d.invites| && d.invites[i].status == Pending && d.invites[i].orgId == orgId &&
    EqualFold(d.invites[i].email, email)
  }

  /** An invite stays as it is, or goes from PENDING to ACCEPTED with the user it
      was sent to a member of its org. */
  ghost predicate InviteKept(d: Directory, d': Directory, userId: int, email: string, i: int)
    requires 0 <= i < |d.invites| && |d'.invites| == |d.invites|
  {
    d'.invites[i] == d.invites[i] ||
    (IsInvited(d, email, d.invites[i].orgId, i) && d'.invites[i] == d.invites[i].(status := Accepted) &&
     (d.invites[i].orgId, userId) in d'.members)
  }

  /** How one acceptance round may change the tables: every membership it adds is
      a plain one that a pending invite asked for. */
  ghost predicate Extends(d: Directory, d': Directory, userId: int, email: string) {
    && d'.orgs == d.orgs && d'.nextOrg == d.nextOrg && d'.users == d.users && d'.nextUser == d.nextUser
    && |d'.invites| == |d.invites|
    && (forall k :: k in d.members ==> k in d'.members && d'.members[k] == d.members[k])
    && (forall k :: k in d'.members && k !in d.members ==> k.1 == userId && d'.members[k].role == Member)
    && (forall k :: k in d'.members && k !in d.members ==> Invited(d, email, k.0))
    && (forall i :: 0 <= i < |d.invites| ==> InviteKept(d, d', userId, email, i))
  }

  lemma ExtendsStep(d: Directory, i: int, userId: int, email: string, now: int)
    requires 0 <= i < |d.invites| && IsInvited(d, email, d.invites[i].orgId, i)
    ensures
      var orgId := d.invites[i].orgId;
      ((orgId, userId) in d.members ==> Extends(d, Accept(d, i), userId, email)) &&
      ((orgId, userId) !in d.members ==> Extends(d, Join(d, orgId, userId, now), userId, email)) &&
      ((orgId, userId) !in d.members ==> Extends(d, Accept(Join(d, orgId, userId, now), i), userId, email))
  {
  }

  lemma ExtendsTrans(a: Directory, b: Directory, c: Directory, userId: int, email: string)
    requires Extends(a, b, userId, email) && Extends(b, c, userId, email)
    ensures Extends(a, c, userId, email)
  {
    forall orgId | Invited(b, email, orgId) ensures Invited(a, email, orgId) {
      var i :| IsInvited(b, email, orgId, i);
      assert InviteKept(a, b, userId, email, i);
      assert IsInvited(a, email, orgId, i);
    }
    forall i | 0 <= i < |a.invites| ensures InviteKept(a, c, userId, email, i) {
      assert InviteKept(a, b, userId, email, i) && InviteKept(b, c, userId, email, i);
    }
  }

  /** The listed invites are distinct, pending, and the email's. */
  ghost predicate AllPending(d: Directory, ids: seq<int>, email: string) {
    InRange(ids, |d.invites|) && (forall i, j :: 0 <= i < j < |ids| ==> ids[i] != ids[j]) &&
    forall i :: 0 <= i < |ids| ==> IsInvited(d, email, d.invites[ids[i]].orgId, ids[i])
  }

  /** The round breaks off at this invite: the policy check or one of the writes
      fails. */
  predicate Stops(d: Directory, userId: int, i: int, a: Answers)
    requires 0 <= i < |d.invites|
  {
    var orgId := d.invites[i].orgId;
    if (orgId, userId) in d.members then a.setFails(i)
    else a.policy(orgId) == Broken || (a.policy(orgId) == Allow && (a.addFails(orgId) || a.setFails(i)))
  }

  /** The tables after the round's first invite. */
  function AcceptOne(d: Directory, userId: int, i: int, a: Answers, now: int): Directory
    requires 0 <= i < |d.invites|
  {
    var orgId := d.invites[i].orgId;
    if (orgId, userId) in d.members then (if a.setFails(i) then d else Accept(d, i))
    else if a.policy(orgId) != Allow || a.addFails(orgId) then d
    else if a.setFails(i) then Join(d, orgId, userId, now)
    else Accept(Join(d, orgId, userId, now), i)
  }

  lemma RoundPeels(d: Directory, userId: int, email: string, ids: seq<int>, a: Answers, now: int)
    requires AllPending(d, ids, email) && ids != []
    ensures Extends(d, AcceptOne(d, userId, ids[0], a, now), userId, email)
    ensures !Stops(d, userId, ids[0], a) ==> AllPending(AcceptOne(d, userId, ids[0], a, now), ids[1..], email)
    ensures
      var (d', r) := AcceptAll(d, userId, ids, a, now);
      var d1 := AcceptOne(d, userId, ids[0], a, now);
      if Stops(d, userId, ids[0], a) then d' == d1 && r.Err?
      else d' == AcceptAll(d1, userId, ids[1..], a, now).0 && (r.Ok? <==> AcceptAll(d1, userId, ids[1..], a, now).1.Ok?)
  {
    var i := ids[0];
    assert IsInvited(d, email, d.invites[i].orgId, i);
    ExtendsStep(d, i, userId, email, now);
    ExtendsSelf(d, userId, email);
  }

  lemma ExtendsSelf(d: Directory, userId: int, email: string)
    ensures Extends(d, d, userId, email)
  {
  }

  /** Whatever the policy answers, and wherever the policy, a membership insert or an
      invite update fails, a round only adds memberships that were asked for and only
      accepts invites of members. */
  lemma {:induction false} AcceptAllExtends(d: Directory, userId: int, email: string, ids: seq<int>, a: Answers,
                                            now: int)
    requires AllPending(d, ids, email)
    ensures Extends(d, AcceptAll(d, userId, ids, a, now).0, userId, email)
    decreases |ids|
  {
    if ids == [] {
      ExtendsSelf(d, userId, email);
    } else {
      RoundPeels(d, userId, email, ids, a, now);
      if !Stops(d, userId, ids[0], a) {
        var d1, rest := AcceptOne(d, userId, ids[0], a, now), ids[1..];
        AcceptAllExtends(d1, userId, email, rest, a, now);
        ExtendsTrans(d, d1, AcceptAll(d1, userId, rest, a, now).0, userId, email);
      }
    }
  }

  lemma AcceptPendingExtends(d: Directory, userId: int, email: string, a: Answers, now: int)
    ensures Extends(d, AcceptPending(d, userId, email, a, now).0, userId, email)
  {
    AcceptAllExtends(d, userId, email, PendingFor(d.invites, email), a, now);
  }

  /** A round reports as joined exactly the orgs the user was not in before. */
  lemma {:induction false} JoinedExactly(d: Directory, userId: int, email: string, ids: seq<int>, a: Answers, now: int)
    requires AllPending(d, ids, email) && AcceptAll(d, userId, ids, a, now).1.Ok?
    ensures
      var (d', joined) := AcceptAll(d, userId, ids, a, now);
      forall o :: o in joined.value <==> (o, userId) in d'.members && (o, userId) !in d.members
    decreases |ids|
  {
    if ids != [] {
      var d1 := AcceptOne(d, userId, ids[0], a, now);
      RoundPeels(d, userId, email, ids, a, now);
      JoinedExactly(d1, userId, email, ids[1..], a, now);
      AcceptAllExtends(d1, userId, email, ids[1..], a, now);
    }
  }

  /** The orgs a round reports as joined hold the user as a plain member. */
  lemma JoinedAreMembers(d: Directory, userId: int, email: string, ids: seq<int>, a: Answers, now: int)
    requires AllPending(d, ids, email) && AcceptAll(d, userId, ids, a, now).1.Ok?
    ensures
      var (d', joined) := AcceptAll(d, userId, ids, a, now);
      forall o :: o in joined.value ==> RoleOf(d'.members, o, userId) == Some(Member)
  {
    JoinedExactly(d, userId, email, ids, a, now);
    AcceptAllExtends(d, userId, email, ids, a, now);
  }

  // ------------------------------------------------------------------- denials

  /** An invite the round leaves pending: its org denies and the user is not in it. */
  ghost predicate Denied(d: Directory, userId: int, policy: int -> Policy, i: int) {
    0 <= i < |d.invites| && policy(d.invites[i].orgId) == Deny && (d.invites[i].orgId, userId) !in d.members
  }

  /** A completed round leaves denied invites denied, and as they are. */
  lemma {:induction false} DeniedHold(d: Directory, userId: int, email: string, ids: seq<int>, a: Answers, now: int,
                                      i: int)
    requires AllPending(d, ids, email) && AcceptAll(d, userId, ids, a, now).1.Ok? && Denied(d, userId, a.policy, i)
    ensures
      var d' := AcceptAll(d, userId, ids, a, now).0;
      Denied(d', userId, a.policy, i) && d'.invites[i] == d.invites[i]
    decreases |ids|
  {
    if ids != [] {
      RoundPeels(d, userId, email, ids, a, now);
      DeniedHold(AcceptOne(d, userId, ids[0], a, now), userId, email, ids[1..], a, now, i);
    }
  }

  /** A completed round settles every listed invite: accepted, or denied. */
  lemma {:induction false} RoundSettles(d: Directory, userId: int, email: string, ids: seq<int>, a: Answers, now: int,
                                        k: int)
    requires AllPending(d, ids, email) && AcceptAll(d, userId, ids, a, now).1.Ok? && 0 <= k < |ids|
    ensures
      var d' := AcceptAll(d, userId, ids, a, now).0;
      d'.invites[ids[k]].status == Accepted || Denied(d', userId, a.policy, ids[k])
    decreases |ids|
  {
    var d1, rest := AcceptOne(d, userId, ids[0], a, now), ids[1..];
    RoundPeels(d, userId, email, ids, a, now);
    if k > 0 {
      RoundSettles(d1, userId, email, rest, a, now, k - 1);
    } else if d1 == d {
      DeniedHold(d1, userId, email, rest, a, now, ids[0]);
    } else {
      AcceptedStays(d1, userId, email, rest, a, now, ids[0]);
    }
  }

  lemma AcceptedStays(d: Directory, userId: int, email: string, ids: seq<int>, a: Answers, now: int, i: int)
    requires AllPending(d, ids, email) && 0 <= i < |d.invites| && d.invites[i].status == Accepted
    ensures AcceptAll(d, userId, ids, a, now).0.invites[i].status == Accepted
  {
    AcceptAllExtends(d, userId, email, ids, a, now);
    assert InviteKept(d, AcceptAll(d, userId, ids, a, now).0, userId, email, i);
  }

  /** A round over denied invites only does nothing. */
  lemma {:induction false} DeniedRound(d: Directory, userId: int, ids: seq<int>, a: Answers, now: int)
    requires InRange(ids, |d.invites|) && forall k :: 0 <= k < |ids| ==> Denied(d, userId, a.policy, ids[k])
    ensures AcceptAll(d, userId, ids, a, now) == (d, Ok([]))
    decreases |ids|
  {
    if ids != [] { DeniedRound(d, userId, ids[1..], a, now); }
  }

  /** Idempotence: repeating a completed acceptPendingInvites under the same denials
      changes nothing and joins no org, however the clock moved and whichever writes
      would fail. */
  lemma AcceptTwice(d: Directory, userId: int, email: string, a: Answers, now: int, b: Answers, later: int)
    requires AcceptPending(d, userId, email, a, now).1.Ok?
    requires forall o :: a.policy(o) == Deny ==> b.policy(o) == Deny
    ensures
      var d' := AcceptPending(d, userId, email, a, now).0;
      AcceptPending(d', userId, email, b, later) == (d', Ok([]))
  {
    var ids := PendingFor(d.invites, email);
    AcceptAllExtends(d, userId, email, ids, a, now);
    var d' := AcceptAll(d, userId, ids, a, now).0;
    var ids' := PendingFor(d'.invites, email);
    forall k | 0 <= k < |ids'| ensures Denied(d', userId, b.policy, ids'[k]) {
      assert ids'[k] in ids';
      assert InviteKept(d, d', userId, email, ids'[k]);
      assert ids'[k] in ids;
      var j :| 0 <= j < |ids| && ids[j] == ids'[k];
      RoundSettles(d, userId, email, ids, a, now, j);
    }
    DeniedRound(d', userId, ids', b, later);
  }

  /** When an invite's update fails its user is a member already, and the invite
      pending; a later round accepts it without joining again. */
  lemma FailedUpdateRepairs(d: Directory, userId: int, i: int, a: Answers, now: int, b: Answers, later: int)
    requires 0 <= i < |d.invites| && d.invites[i].status == Pending && (d.invites[i].orgId, userId) !in d.members
    requires a.policy(d.invites[i].orgId) == Allow && !a.addFails(d.invites[i].orgId) && a.setFails(i) && !b.setFails(i)
    ensures
      var d1 := AcceptAll(d, userId, [i], a, now).0;
      (d.invites[i].orgId, userId) in d1.members && d1.invites == d.invites &&
      AcceptAll(d1, userId, [i], b, later) == (Accept(d1, i), Ok([]))
  {
    var none: seq<int> := [];
    assert [i][1..] == none;
  }

  /** A denied invite of a non-member stays PENDING, so it converts later. */
  lemma DeniedStaysPending(d: Directory, userId: int, email: string, a: Answers, now: int, i: int)
    requires Denied(d, userId, a.policy, i) && AcceptPending(d, userId, email, a, now).1.Ok?
    ensures
      var d' := AcceptPending(d, userId, email, a, now).0;
      d'.invites[i] == d.invites[i] && (d.invites[i].orgId, userId) !in d'.members
  {
    DeniedHold(d, userId, email, PendingFor(d.invites, email), a, now, i);
  }

  // -------------------------------------------------------------------- tokens

  /** The token is org-less, or its org and role are in the membership table. */
  ghost predicate Justified(d: Directory, t: Token) {
    (t.orgId == 0 && t.role.None?) || (t.role.Some? && RoleOf(d.members, t.orgId, t.userId) == t.role)
  }

  lemma LandJustified(d: Directory, userId: int, domain: string, joined: seq<int>, a: Answers, now: int)
    requires Land(d, userId, domain, joined, a, now).1.Ok?
    ensures
      var (d', t) := Land(d, userId, domain, joined, a, now);
      t.value.userId == userId && Justified(d', t.value)
  {
  }

  lemma LoginJustified(d: Directory, rawEmail: string, a: Answers, now: int)
    requires Login(d, rawEmail, a, now).1.Ok?
    ensures Justified(Login(d, rawEmail, a, now).0, Login(d, rawEmail, a, now).1.value)
  {
    var email := Lower(TrimSpace(rawEmail));
    var (d0, userId) := Provision(d, email);
    var (d1, joined) := AcceptPending(d0, userId, email, a, now);
    LandJustified(d1, userId, SplitEmail(email).value.1, joined.value, a, now);
  }

  lemma RefreshJustified(d: Directory, claims: Token, a: Answers, now: int)
    requires Refresh(d, claims, a, now).1.Ok?
    ensures Justified(Refresh(d, claims, a, now).0, Refresh(d, claims, a, now).1.value)
  {
    var email := d.users[claims.userId].email;
    JoinedAreMembers(d, claims.userId, email, PendingFor(d.invites, email), a, now);
    var joined := AcceptPending(d, claims.userId, email, a, now).1.value;
    if joined != [] { assert joined[|joined| - 1] in joined; }
  }

  /** A login that accepted invites lands in the org of the last one accepted. */
  lemma LoginLandsInInvited(d: Directory, userId: int, email: string, domain: string, a: Answers, now: int)
    requires Enter(d, userId, email, domain, a, now).1.Ok?
    ensures
      var joined := AcceptPending(d, userId, email, a, now).1.value;
      var t := Enter(d, userId, email, domain, a, now).1.value;
      joined != [] ==> t == Token(userId, joined[|joined| - 1], Some(Member))
  {
    var (d1, joined) := AcceptPending(d, userId, email, a, now);
    JoinedAreMembers(d, userId, email, PendingFor(d.invites, email), a, now);
    if joined.value != [] {
      assert joined.value[|joined.value| - 1] in joined.value;
    }
  }

  // --------------------------------------------------------------------- calls

  /** One call of the session, org and invite API, with what the policy and the
      store answer it. Claims are arbitrary. */
  datatype Call =
    | LoginCall(rawEmail: string, answers: Answers)
    | RefreshCall(claims: Token, answers: Answers)
    | SwitchCall(userId: int, orgId: int)
    | MeCall(userId: int, answers: Answers)
    | CreateCall(userId: int, name: string, domain: string, answer: Policy, slug: Option<string>, addFails: bool)
    | UpdateCall(orgId: int, userId: int, newName: Option<string>, newDomain: Option<string>)
    | RemoveCall(orgId: int, userId: int, targetId: int)
    | InviteCall(orgId: int, userId: int, rawEmail: string, answer: Policy)
    | RevokeCall(orgId: int, userId: int, invite: int)

  function Issued(r: Result<Token>): Option<Token> {
    if r.Ok? then Some(r.value) else None
  }

  /** The tables a call leaves and the token it issues. */
  ghost function Do(d: Directory, c: Call, now: int): (Directory, Option<Token>) {
    match c
    case LoginCall(rawEmail, a) =>
      var (d', r) := Login(d, rawEmail, a, now);
      (d', Issued(r))
    case RefreshCall(claims, a) =>
      var (d', r) := Refresh(d, claims, a, now);
      (d', Issued(r))
    case SwitchCall(userId, orgId) => (d, Issued(SwitchOrg(d, userId, orgId)))
    case MeCall(userId, a) => (Me(d, userId, a, now).0, None)
    case CreateCall(userId, name, domain, answer, slug, addFails) =>
      (CreateOrg(d, userId, name, domain, answer, slug, addFails, now).0, None)
    case UpdateCall(orgId, userId, name, domain) => (UpdateOrg(d, orgId, userId, name, domain).0, None)
    case RemoveCall(orgId, userId, targetId) => (RemoveMember(d, orgId, userId, targetId).0, None)
    case InviteCall(orgId, userId, rawEmail, answer) => (CreateInvite(d, orgId, userId, rawEmail, answer).0, None)
    case RevokeCall(orgId, userId, invite) => (RevokeInvite(d, orgId, userId, invite).0, None)
  }

  ghost function Run(d: Directory, calls: seq<(Call, int)>): Directory
    decreases |calls|
  {
    if calls == [] then d else Run(Do(d, calls[0].0, calls[0].1).0, calls[1..])
  }

  /** Every token any call issues in any state, on any claims and under any
      policy, is org-less or carries a membership of that moment. */
  lemma TokensJustified(d: Directory, c: Call, now: int)
    ensures Do(d, c, now).1.Some? ==> Justified(Do(d, c, now).0, Do(d, c, now).1.value)
  {
    if Do(d, c, now).1.Some? {
      match c
      case LoginCall(rawEmail, a) => LoginJustified(d, rawEmail, a, now);
      case RefreshCall(claims, a) => RefreshJustified(d, claims, a, now);
      case SwitchCall(userId, orgId) =>
    }
  }

  // ------------------------------------------------- what a call may change

  /** The invites of d live on in d': unchanged, accepted with the invited user a
      member, or revoked in an org that has an owner. */
  ghost predicate InvitesFollow(d: Directory, d': Directory) {
    |d.invites| <= |d'.invites| && forall i :: 0 <= i < |d.invites| ==> InviteFollows(d, d', i)
  }

  ghost predicate InviteFollows(d: Directory, d': Directory, i: int)
    requires 0 <= i < |d.invites| <= |d'.invites|
  {
    d'.invites[i] == d.invites[i] || (d.invites[i].status == Pending &&
      ((d'.invites[i] == d.invites[i].(status := Accepted) && InviteeJoined(d', i)) ||
       (d'.invites[i] == d.invites[i].(status := Revoked) && Owners(d.members, d.invites[i].orgId) != {})))
  }

  /** The user with the invite's email is a member of its org. */
  ghost predicate InviteeJoined(d: Directory, i: int)
    requires 0 <= i < |d.invites|
  {
    exists u :: HasEmail(d.users, u, d.invites[i].email) && (d.invites[i].orgId, u) in d.members
  }

  /** Why a membership of d' that d lacks may exist: a pending invite for the
      user's email, the user being org-less with an email whose domain the org
      joins, or the user having just created the org. */
  ghost predicate Entitled(d: Directory, d': Directory, k: (int, int)) {
    k in d'.members && k.1 in d'.users &&
    ((d'.members[k].role == Member && Invited(d, d'.users[k.1].email, k.0)) ||
     (d'.members[k].role == Member && DomainJoins(d, d', k)) ||
     (d'.members[k].role == Owner && SoleMember(d', k, d.nextOrg)))
  }

  ghost predicate SoleMember(d: Directory, k: (int, int), orgId: int) {
    k.0 == orgId && forall other :: other in d.members && other.0 == orgId ==> other == k
  }

  ghost predicate DomainJoins(d: Directory, d': Directory, k: (int, int)) {
    (forall o :: (o, k.1) !in d.members) &&
    exists email ::
      HasEmail(d'.users, k.1, email) && SplitEmail(email).Some? && JoinsBy(d.orgs, k.0, SplitEmail(email).value.1)
  }

  /** Memberships never change, and come only with a cause. */
  ghost predicate MembersEntitled(d: Directory, d': Directory) {
    forall k :: k in d'.members ==> if k in d.members then d'.members[k] == d.members[k] else Entitled(d, d', k)
  }

  /** Every org has an owner after the step if and only if it had one before. */
  ghost predicate OwnersSettled(d: Directory, d': Directory) {
    forall o :: o in d.orgs ==> o in d'.orgs && (Owners(d.members, o) != {} <==> Owners(d'.members, o) != {})
  }

  // ---------------------------------------------------------------- invariants

  ghost predicate BothPend(invites: seq<Invite>, i: int, j: int) {
    0 <= i < |invites| && 0 <= j < |invites| && invites[i].status == Pending && invites[j].status == Pending &&
    invites[i].orgId == invites[j].orgId && EqualFold(invites[i].email, invites[j].email)
  }

  /** At most one pending invite per org and email. */
  ghost predicate OnePending(invites: seq<Invite>) {
    forall i, j :: BothPend(invites, i, j) ==> i == j
  }

  ghost predicate OneUserPerEmail(users: map<int, User>) {
    forall a, b, email :: HasEmail(users, a, email) && HasEmail(users, b, email) ==> a == b
  }

  ghost predicate Linked(d: Directory) {
    && 1 <= d.nextOrg && (forall o :: o in d.orgs ==> 1 <= o < d.nextOrg)
    && 1 <= d.nextUser && (forall u :: u in d.users ==> 1 <= u < d.nextUser)
    && (forall k :: k in d.members ==> k.0 in d.orgs && k.1 in d.users)
    && (forall i :: 0 <= i < |d.invites| ==> d.invites[i].orgId in d.orgs)
  }

  ghost predicate OneOrgPerSlug(orgs: map<int, Org>) {
    forall a, b :: a in orgs && b in orgs && orgs[a].slug == orgs[b].slug ==> a == b
  }

  ghost predicate Inv(d: Directory) {
    Linked(d) && OnePending(d.invites) && OneUserPerEmail(d.users) && OneOrgPerSlug(d.orgs)
  }

  /** All that is kept from one state to the next. */
  ghost predicate Follows(d: Directory, d': Directory) {
    Inv(d') && InvitesFollow(d, d') && MembersEntitled(d, d') && OwnersSettled(d, d')
  }

  /** What the three parts of a login have in common. */
  ghost predicate Grows(d: Directory, d': Directory) {
    && d'.orgs == d.orgs && d'.nextOrg == d.nextOrg && |d'.invites| == |d.invites|
    && (forall u :: u in d.users ==> u in d'.users && d'.users[u] == d.users[u])
    && (forall k :: k in d.members ==> k in d'.members && d'.members[k] == d.members[k])
    && (forall k :: k in d'.members ==> k.0 in d.orgs)
  }

  // ----------------------------------------------------------- call by call

  lemma FollowsSelf(d: Directory)
    requires Inv(d)
    ensures Follows(d, d)
  {
  }

  lemma ExtendsFollows(d: Directory, d': Directory, userId: int, email: string)
    requires Inv(d) && Extends(d, d', userId, email) && HasEmail(d.users, userId, email)
    ensures Follows(d, d')
  {
    forall i | 0 <= i < |d.invites| ensures InviteFollows(d, d', i) && d'.invites[i].orgId == d.invites[i].orgId {
      assert InviteKept(d, d', userId, email, i);
      assert HasEmail(d'.users, userId, d.invites[i].email) <==> EqualFold(email, d.invites[i].email);
    }
    forall i, j | BothPend(d'.invites, i, j) ensures i == j {
      assert InviteKept(d, d', userId, email, i) && InviteKept(d, d', userId, email, j);
      assert BothPend(d.invites, i, j);
    }
    forall k | k in d'.members && k !in d.members ensures Entitled(d, d', k) && k.0 in d.orgs {
      var i :| IsInvited(d, email, k.0, i);
      assert IsInvited(d, d'.users[k.1].email, k.0, i);
    }
  }

  lemma JoinFollows(d: Directory, orgId: int, userId: int, email: string, now: int)
    requires Inv(d) && HasEmail(d.users, userId, email) && SplitEmail(email).Some? &&
             JoinsBy(d.orgs, orgId, SplitEmail(email).value.1)
    requires forall o :: (o, userId) !in d.members
    ensures Follows(d, Join(d, orgId, userId, now)) && Grows(d, Join(d, orgId, userId, now))
  {
    var d' := Join(d, orgId, userId, now);
    assert HasEmail(d'.users, userId, email);
    assert Entitled(d, d', (orgId, userId));
  }

  lemma LandFollows(d: Directory, userId: int, email: string, domain: string, joined: seq<int>, a: Answers, now: int)
    requires Inv(d) && HasEmail(d.users, userId, email) && SplitEmail(email).Some? &&
             SplitEmail(email).value.1 == domain
    ensures Follows(d, Land(d, userId, domain, joined, a, now).0) && Grows(d, Land(d, userId, domain, joined, a, now).0)
  {
    var d' := Land(d, userId, domain, joined, a, now).0;
    if d' != d {
      var orgId := AutoJoinOrg(d.orgs, domain).value;
      assert forall o :: (o, userId) in d.members ==> o in Listing(d.members, userId);
      JoinFollows(d, orgId, userId, email, now);
    }
  }

  lemma ProvisionFollows(d: Directory, email: string)
    requires Inv(d)
    ensures Follows(d, Provision(d, email).0)
    ensures HasEmail(Provision(d, email).0.users, Provision(d, email).1, email)
    ensures Provision(d, email).0.members == d.members && Provision(d, email).0.invites == d.invites &&
            Provision(d, email).0.orgs == d.orgs
  {
    if UserByEmail(d.users, email).None? {
      var users' := d.users[d.nextUser := User(email, true)];
      forall a, b, e | HasEmail(users', a, e) && HasEmail(users', b, e) ensures a == b {
        assert a != d.nextUser ==> HasEmail(d.users, a, e);
        assert a != d.nextUser ==> (HasEmail(d.users, a, email) <==> EqualFold(d.users[a].email, email));
        assert b != d.nextUser ==> HasEmail(d.users, b, e);
        assert b != d.nextUser ==> (HasEmail(d.users, b, email) <==> EqualFold(d.users[b].email, email));
      }
    }
  }

  lemma FollowsTrans(a: Directory, b: Directory, c: Directory)
    requires Inv(a) && Follows(a, b) && Follows(b, c) && Grows(a, b) && Grows(b, c)
    ensures Follows(a, c) && Grows(a, c)
  {
    forall i | 0 <= i < |a.invites| ensures InviteFollows(a, c, i) {
      assert InviteFollows(a, b, i) && InviteFollows(b, c, i);
      if b.invites[i] != a.invites[i] && b.invites[i].status == Accepted {
        var u :| HasEmail(b.users, u, b.invites[i].email) && (b.invites[i].orgId, u) in b.members;
        assert HasEmail(c.users, u, c.invites[i].email);
      }
    }
    forall k | k in c.members && k !in a.members ensures Entitled(a, c, k) {
      if k in b.members {
        assert Entitled(a, b, k);
        EntitledGrows(a, b, c, k);
      } else {
        assert Entitled(b, c, k);
        EntitledEarlier(a, b, c, k);
      }
    }
  }

  lemma EntitledGrows(a: Directory, b: Directory, c: Directory, k: (int, int))
    requires Entitled(a, b, k) && Linked(a) && Grows(a, b) && Grows(b, c)
    ensures Entitled(a, c, k)
  {
    var u := k.1;
    assert u in b.users && c.users[u] == b.users[u];
    if DomainJoins(a, b, k) {
      var email :| HasEmail(b.users, k.1, email) && SplitEmail(email).Some? &&
                   JoinsBy(a.orgs, k.0, SplitEmail(email).value.1);
      assert HasEmail(c.users, k.1, email);
    }
  }

  lemma EntitledEarlier(a: Directory, b: Directory, c: Directory, k: (int, int))
    requires InvitesFollow(a, b) && Grows(a, b) && Grows(b, c) && Linked(b) && Entitled(b, c, k)
    ensures Entitled(a, c, k)
  {
    var email := c.users[k.1].email;
    if Invited(b, email, k.0) {
      var i :| IsInvited(b, email, k.0, i);
      assert InviteFollows(a, b, i);
      assert IsInvited(a, email, k.0, i);
    }
  }

  lemma RoundFollows(d: Directory, userId: int, email: string, a: Answers, now: int)
    requires Inv(d) && HasEmail(d.users, userId, email)
    ensures Follows(d, AcceptPending(d, userId, email, a, now).0) && Grows(d, AcceptPending(d, userId, email, a, now).0)
  {
    AcceptPendingExtends(d, userId, email, a, now);
    ExtendsFollows(d, AcceptPending(d, userId, email, a, now).0, userId, email);
  }

  lemma EnterFollows(d: Directory, userId: int, email: string, domain: string, a: Answers, now: int)
    requires Inv(d) && HasEmail(d.users, userId, email) && SplitEmail(email).Some? &&
             SplitEmail(email).value.1 == domain
    ensures
      var d' := Enter(d, userId, email, domain, a, now).0;
      Follows(d, d') && Grows(d, d')
  {
    var (d1, joined) := AcceptPending(d, userId, email, a, now);
    RoundFollows(d, userId, email, a, now);
    if joined.Ok? {
      assert HasEmail(d1.users, userId, email);
      LandFollows(d1, userId, email, domain, joined.value, a, now);
      FollowsTrans(d, d1, Land(d1, userId, domain, joined.value, a, now).0);
    }
  }

  lemma LoginFollows(d: Directory, rawEmail: string, a: Answers, now: int)
    requires Inv(d)
    ensures Follows(d, Login(d, rawEmail, a, now).0)
  {
    var email := Lower(TrimSpace(rawEmail));
    var (d0, userId) := Provision(d, email);
    var parts := SplitEmail(email);
    if parts.Some? {
      ProvisionFollows(d, email);
      EnterFollows(d0, userId, email, parts.value.1, a, now);
      FollowsTrans(d, d0, Enter(d0, userId, email, parts.value.1, a, now).0);
    }
    FollowsSelf(d);
  }

  lemma AddOrgInv(d: Directory, org: Org, owner: Option<int>, now: int)
    requires Inv(d) && org.slug !in Slugs(d.orgs) && (owner.Some? ==> owner.value in d.users)
    ensures Inv(AddOrg(d, org, owner, now))
  {
    assert forall o :: o in d.orgs ==> d.orgs[o].slug in Slugs(d.orgs);
  }

  lemma AddOrgFollows(d: Directory, org: Org, owner: Option<int>, now: int)
    requires Inv(d) && org.slug !in Slugs(d.orgs) && (owner.Some? ==> owner.value in d.users)
    ensures Follows(d, AddOrg(d, org, owner, now))
  {
    var d' := AddOrg(d, org, owner, now);
    AddOrgInv(d, org, owner, now);
    assert InvitesFollow(d, d');
    assert forall k :: k in d'.members && k !in d.members ==> Entitled(d, d', k) by {
      assert forall k :: k in d'.members && k !in d.members ==> SoleMember(d', k, d.nextOrg);
    }
  }

  lemma CreateFollows(d: Directory, creatorId: int, name: string, domain: string, policy: Policy, slug: Option<string>,
                      addFails: bool, now: int)
    requires Inv(d)
    ensures Follows(d, CreateOrg(d, creatorId, name, domain, policy, slug, addFails, now).0)
  {
    var (d', r) := CreateOrg(d, creatorId, name, domain, policy, slug, addFails, now);
    if d' == d {
      FollowsSelf(d);
    } else {
      AddOrgFollows(d, d'.orgs[d.nextOrg], if r.Ok? then Some(creatorId) else None, now);
    }
  }

  /** The two inserts of a creation are not one transaction: a created org has an
      owner exactly when the creation succeeded. */
  lemma CreatedOwnedIff(d: Directory, creatorId: int, name: string, domain: string, policy: Policy,
                        slug: Option<string>, addFails: bool, now: int)
    requires Inv(d)
    ensures
      var (d', r) := CreateOrg(d, creatorId, name, domain, policy, slug, addFails, now);
      d.nextOrg in d'.orgs ==>
        (Owners(d'.members, d.nextOrg) != {} <==> r == Ok(d.nextOrg)) && (r.Ok? <==> !addFails && creatorId in d.users)
  {
    var (d', r) := CreateOrg(d, creatorId, name, domain, policy, slug, addFails, now);
    if r.Ok? {
      assert (d.nextOrg, creatorId) in Owners(d'.members, d.nextOrg);
    }
  }

  /** Renaming an org or changing the domain it joins. */
  lemma OrgFollows(d: Directory, orgId: int, org: Org)
    requires Inv(d) && orgId in d.orgs && org.slug == d.orgs[orgId].slug
    ensures Follows(d, d.(orgs := d.orgs[orgId := org]))
  {
  }

  lemma UpdateFollows(d: Directory, orgId: int, actorId: int, name: Option<string>, domain: Option<string>)
    requires Inv(d)
    ensures Follows(d, UpdateOrg(d, orgId, actorId, name, domain).0)
  {
    var d' := UpdateOrg(d, orgId, actorId, name, domain).0;
    if d' == d {
      FollowsSelf(d);
    } else {
      OrgFollows(d, orgId, d'.orgs[orgId]);
    }
  }

  lemma RemoveFollows(d: Directory, orgId: int, actorId: int, targetId: int)
    requires Inv(d)
    ensures Follows(d, RemoveMember(d, orgId, actorId, targetId).0)
  {
    var (d', r) := RemoveMember(d, orgId, actorId, targetId);
    if r.Ok? {
      forall o | o in d.orgs ensures Owners(d.members, o) != {} <==> Owners(d'.members, o) != {} {
        var gone := (orgId, targetId);
        var before := Owners(d.members, o);
        assert Owners(d'.members, o) == before - {gone};
        if o == orgId && gone in before {
          assert |before - {gone}| == |before| - 1;
        }
      }
    }
  }

  lemma OneMorePending(invites: seq<Invite>, invite: Invite)
    requires OnePending(invites) && !HasPending(invites, invite.orgId, invite.email)
    ensures OnePending(invites + [invite])
  {
    var invites' := invites + [invite];
    forall i, j | BothPend(invites', i, j) ensures i == j {
      assert i < |invites| && j < |invites| ==> BothPend(invites, i, j);
    }
  }

  lemma CreateInviteFollows(d: Directory, orgId: int, actorId: int, rawEmail: string, policy: Policy)
    requires Inv(d)
    ensures Follows(d, CreateInvite(d, orgId, actorId, rawEmail, policy).0)
  {
    var (d', r) := CreateInvite(d, orgId, actorId, rawEmail, policy);
    if r.Err? {
      FollowsSelf(d);
    } else {
      var invite := Invite(orgId, Lower(TrimSpace(rawEmail)), Pending);
      OneMorePending(d.invites, invite);
    }
  }

  lemma FewerPending(invites: seq<Invite>, i: int)
    requires OnePending(invites) && 0 <= i < |invites|
    ensures OnePending(invites[i := invites[i].(status := Revoked)])
  {
    var invites' := invites[i := invites[i].(status := Revoked)];
    forall a, b | BothPend(invites', a, b) ensures a == b {
      assert BothPend(invites, a, b);
    }
  }

  lemma RevokeFollows(d: Directory, orgId: int, actorId: int, i: int)
    requires Inv(d)
    ensures Follows(d, RevokeInvite(d, orgId, actorId, i).0)
  {
    var (d', r) := RevokeInvite(d, orgId, actorId, i);
    if r.Err? {
      FollowsSelf(d);
    } else {
      assert (orgId, actorId) in Owners(d.members, orgId);
      FewerPending(d.invites, i);
    }
  }

  predicate OnOrgs(c: Call) {
    c.CreateCall? || c.UpdateCall? || c.RemoveCall? || c.InviteCall? || c.RevokeCall?
  }

  lemma OrgCallFollows(d: Directory, c: Call, now: int)
    requires Inv(d) && OnOrgs(c)
    ensures Follows(d, Do(d, c, now).0)
  {
    match c
    case CreateCall(userId, name, domain, answer, slug, addFails) =>
      CreateFollows(d, userId, name, domain, answer, slug, addFails, now);
    case UpdateCall(orgId, userId, name, domain) => UpdateFollows(d, orgId, userId, name, domain);
    case RemoveCall(orgId, userId, targetId) => RemoveFollows(d, orgId, userId, targetId);
    case InviteCall(orgId, userId, rawEmail, answer) => CreateInviteFollows(d, orgId, userId, rawEmail, answer);
    case RevokeCall(orgId, userId, invite) => RevokeFollows(d, orgId, userId, invite);
  }

  lemma SessionCallFollows(d: Directory, c: Call, now: int)
    requires Inv(d) && !OnOrgs(c)
    ensures Follows(d, Do(d, c, now).0)
  {
    FollowsSelf(d);
    match c
    case LoginCall(rawEmail, a) => LoginFollows(d, rawEmail, a, now);
    case RefreshCall(claims, a) =>
      if claims.userId in d.users { RoundFollows(d, claims.userId, d.users[claims.userId].email, a, now); }
    case SwitchCall(userId, orgId) =>
    case MeCall(userId, a) =>
      if userId in d.users { RoundFollows(d, userId, d.users[userId].email, a, now); }
  }

  /** Every call keeps the invariant; it adds only memberships someone was
      entitled to, settles invites only by joining or in orgs that have an owner,
      and neither takes an org's last owner nor gives an ownerless org one. */
  lemma CallFollows(d: Directory, c: Call, now: int)
    requires Inv(d)
    ensures Follows(d, Do(d, c, now).0)
  {
    if OnOrgs(c) {
      OrgCallFollows(d, c, now);
    } else {
      SessionCallFollows(d, c, now);
    }
  }

  // -------------------------------------------------------------- over runs

  /** Over every run of calls the invariant holds, an org that has an owner keeps
      one, and a settled invite stays settled as it is. */
  lemma {:induction false} RunKeeps(d: Directory, calls: seq<(Call, int)>)
    requires Inv(d)
    ensures Inv(Run(d, calls)) && OwnersSettled(d, Run(d, calls)) && InvitesSettled(d, Run(d, calls))
    decreases |calls|
  {
    if calls != [] {
      var d1 := Do(d, calls[0].0, calls[0].1).0;
      CallFollows(d, calls[0].0, calls[0].1);
      RunKeeps(d1, calls[1..]);
      SettledTrans(d, d1, Run(d, calls));
    }
  }

  lemma SettledTrans(d: Directory, d1: Directory, d2: Directory)
    requires InvitesFollow(d, d1) && InvitesSettled(d1, d2)
    ensures InvitesSettled(d, d2)
  {
    forall i | 0 <= i < |d.invites| ensures InviteSettled(d, d2, i) {
      assert InviteFollows(d, d1, i) && InviteSettled(d1, d2, i);
    }
  }

  ghost predicate InviteSettled(d: Directory, d': Directory, i: int)
    requires 0 <= i < |d.invites| <= |d'.invites|
  {
    d'.invites[i] == d.invites[i] ||
    (d.invites[i].status == Pending && d'.invites[i] == d.invites[i].(status := d'.invites[i].status))
  }

  ghost predicate InvitesSettled(d: Directory, d': Directory) {
    |d.invites| <= |d'.invites| && forall i :: 0 <= i < |d.invites| ==> InviteSettled(d, d', i)
  }

  /** From the empty deployment on, every org whose creation succeeded has an
      owner at all later times. */
  lemma CreatedOrgsOwned(before: seq<(Call, int)>, userId: int, name: string, domain: string, answer: Policy,
                         slug: Option<string>, addFails: bool, now: int, after: seq<(Call, int)>)
    ensures
      var d := Run(EMPTY, before);
      var (d1, r) := CreateOrg(d, userId, name, domain, answer, slug, addFails, now);
      Inv(Run(d1, after)) && (r.Ok? ==> r.value in Run(d1, after).orgs && Owners(Run(d1, after).members, r.value) != {})
  {
    RunKeeps(EMPTY, before);
    var d := Run(EMPTY, before);
    var (d1, r) := CreateOrg(d, userId, name, domain, answer, slug, addFails, now);
    CreateFollows(d, userId, name, domain, answer, slug, addFails, now);
    CreatedOwnedIff(d, userId, name, domain, answer, slug, addFails, now);
    RunKeeps(d1, after);
  }
}
