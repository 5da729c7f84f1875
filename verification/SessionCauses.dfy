/** Which call may cause which change of memberships and invites. */
module SessionCauses {
  import opened Common
  import opened Sessions
  import opened SessionSafety

  ghost predicate OwnerOf(d: Directory, orgId: int, userId: int) {
    RoleOf(d.members, orgId, userId) == Some(Owner)
  }

  // ------------------------------------------------------------ session calls

  /** Nothing but joining: memberships stay, and pending invites may be accepted. */
  ghost predicate OnlyJoins(d: Directory, d': Directory) {
    && |d'.invites| == |d.invites|
    && (forall k :: k in d.members ==> k in d'.members)
    && (forall i :: 0 <= i < |d.invites| ==> StaysOrAccepted(d, d', i))
  }

  ghost predicate StaysOrAccepted(d: Directory, d': Directory, i: int)
    requires 0 <= i < |d.invites| && |d'.invites| == |d.invites|
  {
    d'.invites[i] == d.invites[i] || d'.invites[i].status == Accepted
  }

  lemma JoinsTrans(a: Directory, b: Directory, c: Directory)
    requires OnlyJoins(a, b) && OnlyJoins(b, c)
    ensures OnlyJoins(a, c)
  {
    forall i | 0 <= i < |a.invites| ensures StaysOrAccepted(a, c, i) {
      assert StaysOrAccepted(a, b, i) && StaysOrAccepted(b, c, i);
    }
  }

  lemma RoundJoins(d: Directory, userId: int, email: string, a: Answers, now: int)
    ensures OnlyJoins(d, AcceptPending(d, userId, email, a, now).0)
  {
    var d' := AcceptPending(d, userId, email, a, now).0;
    AcceptPendingExtends(d, userId, email, a, now);
    forall i | 0 <= i < |d.invites| ensures StaysOrAccepted(d, d', i) {
      assert InviteKept(d, d', userId, email, i);
    }
  }

  lemma EnterJoins(d: Directory, userId: int, email: string, domain: string, a: Answers, now: int)
    ensures OnlyJoins(d, Enter(d, userId, email, domain, a, now).0)
  {
    var (d1, joined) := AcceptPending(d, userId, email, a, now);
    RoundJoins(d, userId, email, a, now);
    if joined.Ok? {
      var d2 := Land(d1, userId, domain, joined.value, a, now).0;
      assert OnlyJoins(d1, d2);
      JoinsTrans(d, d1, d2);
    }
  }

  lemma LoginJoins(d: Directory, rawEmail: string, a: Answers, now: int)
    ensures OnlyJoins(d, Login(d, rawEmail, a, now).0)
  {
    var email := Lower(TrimSpace(rawEmail));
    var parts := SplitEmail(email);
    if parts.Some? {
      var (d0, userId) := Provision(d, email);
      assert OnlyJoins(d, d0);
      EnterJoins(d0, userId, email, parts.value.1, a, now);
      JoinsTrans(d, d0, Enter(d0, userId, email, parts.value.1, a, now).0);
    }
  }

  lemma SessionCallJoins(d: Directory, c: Call, now: int)
    requires !OnOrgs(c)
    ensures OnlyJoins(d, Do(d, c, now).0)
  {
    match c
    case LoginCall(rawEmail, a) => LoginJoins(d, rawEmail, a, now);
    case RefreshCall(claims, a) =>
      if claims.userId in d.users { RoundJoins(d, claims.userId, d.users[claims.userId].email, a, now); }
    case SwitchCall(userId, orgId) =>
    case MeCall(userId, a) =>
      if userId in d.users { RoundJoins(d, userId, d.users[userId].email, a, now); }
  }

  // -------------------------------------------------------------------- causes

  /** An invite is accepted only by a login, a refresh or a listing of the user's own,
      and revoked only by an owner of its org revoking this very invite. */
  ghost predicate InviteCaused(d: Directory, c: Call, d': Directory, i: int)
    requires 0 <= i < |d.invites| <= |d'.invites|
  {
    d'.invites[i] != d.invites[i] ==>
      if d'.invites[i].status == Accepted then !OnOrgs(c)
      else
        d'.invites[i].status == Revoked && c.RevokeCall? && c.invite == i && c.orgId == d.invites[i].orgId &&
        OwnerOf(d, c.orgId, c.userId)
  }

  /** A membership disappears only when an owner of the org removes it, and appears
      only for a user of a session call or for the creator of an org. */
  ghost predicate MembershipCaused(d: Directory, c: Call, d': Directory, k: (int, int)) {
    && (k in d.members && k !in d'.members ==>
          c.RemoveCall? && k == (c.orgId, c.targetId) && OwnerOf(d, c.orgId, c.userId))
    && (k !in d.members && k in d'.members ==>
          !OnOrgs(c) || (c.CreateCall? && k == (d.nextOrg, c.userId)))
  }

  ghost predicate Caused(d: Directory, c: Call, d': Directory) {
    && |d.invites| <= |d'.invites|
    && (forall i :: 0 <= i < |d.invites| ==> InviteCaused(d, c, d', i))
    && (forall k :: MembershipCaused(d, c, d', k))
  }

  lemma OrgCallCaused(d: Directory, c: Call, now: int)
    requires OnOrgs(c)
    ensures Caused(d, c, Do(d, c, now).0)
  {
    var d' := Do(d, c, now).0;
    forall k ensures MembershipCaused(d, c, d', k) {
    }
  }

  /** In every state, every change of an invite or a membership has its call. */
  lemma CallCaused(d: Directory, c: Call, now: int)
    ensures Caused(d, c, Do(d, c, now).0)
  {
    if OnOrgs(c) {
      OrgCallCaused(d, c, now);
    } else {
      var d' := Do(d, c, now).0;
      SessionCallJoins(d, c, now);
      forall i | 0 <= i < |d.invites| ensures InviteCaused(d, c, d', i) {
        assert StaysOrAccepted(d, d', i);
      }
    }
  }
}
