/** What the session, org and invite calls answer, said on the tables. */
module SessionAnswers {
  import opened Common
  import opened Sessions
  import opened SessionSafety

  // ------------------------------------------------------------ one round

  /** The user joined the org between the two states. */
  predicate JoinedNow(d: Directory, d': Directory, userId: int, orgId: int) {
    (orgId, userId) in d'.members && (orgId, userId) !in d.members
  }

  /** A completed round joins exactly the orgs with a pending invite for the email that
      the user was not in and the policy allows. */
  lemma RoundJoins(d: Directory, userId: int, email: string, a: Answers, now: int, orgId: int)
    requires AcceptPending(d, userId, email, a, now).1.Ok?
    ensures
      var d' := AcceptPending(d, userId, email, a, now).0;
      JoinedNow(d, d', userId, orgId) <==>
      (orgId, userId) !in d.members && Invited(d, email, orgId) && a.policy(orgId) == Allow
  {
    var ids := PendingFor(d.invites, email);
    var d' := AcceptAll(d, userId, ids, a, now).0;
    AcceptAllExtends(d, userId, email, ids, a, now);
    if Invited(d, email, orgId) && (orgId, userId) !in d.members {
      var i :| IsInvited(d, email, orgId, i);
      assert i in ids;
      var k :| 0 <= k < |ids| && ids[k] == i;
      RoundSettles(d, userId, email, ids, a, now, k);
      assert InviteKept(d, d', userId, email, i);
      if a.policy(orgId) == Deny {
        DeniedHold(d, userId, email, ids, a, now, i);
      } else if a.policy(orgId) == Broken {
        BrokenStops(d, userId, email, ids, a, now, k);
      }
    }
  }

  /** A round does not get past an invite whose policy check fails. */
  lemma {:induction false} BrokenStops(d: Directory, userId: int, email: string, ids: seq<int>, a: Answers, now: int,
                                       k: int)
    requires AllPending(d, ids, email) && 0 <= k < |ids|
    requires a.policy(d.invites[ids[k]].orgId) == Broken && (d.invites[ids[k]].orgId, userId) !in d.members
    ensures AcceptAll(d, userId, ids, a, now).1.Err?
    decreases |ids|
  {
    RoundPeels(d, userId, email, ids, a, now);
    if k > 0 && !Stops(d, userId, ids[0], a) {
      BrokenStops(AcceptOne(d, userId, ids[0], a, now), userId, email, ids[1..], a, now, k - 1);
    }
  }

  /** The k-th invite asks for the one org, and neither it nor one before it for the
      other. */
  ghost predicate AskedBefore(d: Directory, ids: seq<int>, k: int, one: int, other: int)
    requires InRange(ids, |d.invites|)
  {
    0 <= k < |ids| && d.invites[ids[k]].orgId == one && forall j :: 0 <= j <= k ==> d.invites[ids[j]].orgId != other
  }

  lemma AskedLater(d: Directory, d1: Directory, ids: seq<int>, k: int, one: int, other: int)
    requires InRange(ids, |d.invites|) && |d1.invites| == |d.invites| && ids != []
    requires forall i :: 0 <= i < |d.invites| ==> d1.invites[i].orgId == d.invites[i].orgId
    requires AskedBefore(d1, ids[1..], k, one, other) && d.invites[ids[0]].orgId != other
    ensures AskedBefore(d, ids, k + 1, one, other)
  {
    forall j | 0 <= j <= k + 1 ensures d.invites[ids[j]].orgId != other {
      if j > 0 { assert ids[j] == ids[1..][j - 1]; }
    }
  }

  /** A round over the invites completes and joins the orgs, in this order. */
  ghost predicate Joins(d: Directory, userId: int, email: string, ids: seq<int>, a: Answers, now: int,
                        joined: seq<int>)
  {
    AllPending(d, ids, email) && AcceptAll(d, userId, ids, a, now).1 == Ok(joined)
  }

  /** A round reports the orgs it joined in the order of their first invites. */
  lemma {:induction false} JoinedInOrder(d: Directory, userId: int, email: string, ids: seq<int>, a: Answers, now: int,
                                         joined: seq<int>, p: int, q: int) returns (k: int)
    requires Joins(d, userId, email, ids, a, now, joined) && 0 <= p < q < |joined|
    ensures AskedBefore(d, ids, k, joined[p], joined[q])
    decreases |ids|
  {
    var d1, joins, rest := JoinsPeel(d, userId, email, ids, a, now, joined);
    if p == 0 && joins {
      k := 0;
      assert rest[q - 1] in rest;
    } else {
      var less := if joins then 1 else 0;
      k := JoinedInOrder(d1, userId, email, ids[1..], a, now, rest, p - less, q - less);
      assert rest[q - less] in rest;
      AskedLater(d, d1, ids, k, rest[p - less], rest[q - less]);
      k := k + 1;
    }
  }

  /** The org of the first invite is not joined by the rest of the round. */
  lemma JoinsPeel(d: Directory, userId: int, email: string, ids: seq<int>, a: Answers, now: int, joined: seq<int>)
    returns (d1: Directory, joins: bool, rest: seq<int>)
    requires Joins(d, userId, email, ids, a, now, joined) && joined != []
    ensures ids != [] && Joins(d1, userId, email, ids[1..], a, now, rest)
    ensures |d1.invites| == |d.invites| && forall i :: 0 <= i < |d.invites| ==>
            d1.invites[i].orgId == d.invites[i].orgId
    ensures d.invites[ids[0]].orgId !in rest
    ensures joined == (if joins then [d.invites[ids[0]].orgId] else []) + rest
  {
    var i, orgId := ids[0], d.invites[ids[0]].orgId;
    d1 := AcceptOne(d, userId, ids[0], a, now);
    joins := (orgId, userId) !in d.members && a.policy(orgId) == Allow;
    RoundPeels(d, userId, email, ids, a, now);
    rest := AcceptAll(d1, userId, ids[1..], a, now).1.value;
    JoinedExactly(d1, userId, email, ids[1..], a, now);
    if Denied(d, userId, a.policy, i) { DeniedHold(d1, userId, email, ids[1..], a, now, i); }
  }

  /** Of the orgs joined between the two states, the one first invited to last. */
  ghost predicate LastJoined(d: Directory, d': Directory, userId: int, email: string, orgId: int) {
    JoinedNow(d, d', userId, orgId) &&
    forall other | JoinedNow(d, d', userId, other) && other != orgId :: InvitedBefore(d, email, other, orgId)
  }

  /** A pending invite to the one org is older than all those to the other. */
  ghost predicate InvitedBefore(d: Directory, email: string, one: int, other: int) {
    exists i :: IsInvited(d, email, one, i) && forall j :: j <= i ==> !IsInvited(d, email, other, j)
  }

  lemma AskedInvited(d: Directory, email: string, ids: seq<int>, k: int, one: int, other: int)
    requires ids == PendingFor(d.invites, email) && AskedBefore(d, ids, k, one, other)
    ensures InvitedBefore(d, email, one, other)
  {
    var i := ids[k];
    assert i in ids;
    forall j | j <= i ensures !IsInvited(d, email, other, j) {
      assert IsInvited(d, email, other, j) ==> j in ids;
    }
    assert IsInvited(d, email, one, i);
  }

  lemma LastIsLast(d: Directory, userId: int, email: string, a: Answers, now: int)
    requires AcceptPending(d, userId, email, a, now).1.Ok? && AcceptPending(d, userId, email, a, now).1.value != []
    ensures
      var (d', joined) := AcceptPending(d, userId, email, a, now);
      LastJoined(d, d', userId, email, joined.value[|joined.value| - 1])
  {
    var ids := PendingFor(d.invites, email);
    var (d', r) := AcceptAll(d, userId, ids, a, now);
    var joined := r.value;
    var q := |joined| - 1;
    JoinedExactly(d, userId, email, ids, a, now);
    assert joined[q] in joined;
    forall other | JoinedNow(d, d', userId, other) && other != joined[q]
      ensures InvitedBefore(d, email, other, joined[q])
    {
      var p :| 0 <= p < |joined| && joined[p] == other;
      var k := JoinedInOrder(d, userId, email, ids, a, now, joined, p, q);
      AskedInvited(d, email, ids, k, other, joined[q]);
    }
  }

  // ------------------------------------------------------------- refreshing

  ghost predicate NoneJoined(d: Directory, d': Directory, userId: int) {
    forall o :: !JoinedNow(d, d', userId, o)
  }

  /** The token keeps the session's org with the role now held there, while the user is
      a member; else it is for the org joined last, if one was joined; and only
      otherwise it is org-less. */
  ghost predicate Refreshed(d: Directory, d': Directory, email: string, claims: Token, t: Token) {
    t.userId == claims.userId &&
    if claims.orgId > 0 && (claims.orgId, claims.userId) in d'.members
    then t.orgId == claims.orgId && t.role == Some(d'.members[(claims.orgId, claims.userId)].role)
    else if NoneJoined(d, d', claims.userId) then t.orgId == 0 && t.role == None
    else LastJoined(d, d', claims.userId, email, t.orgId) && t.role == Some(Member)
  }

  /** Refreshing: refused to a user who is missing or not enabled, and nothing changes;
      else the pending invites are accepted and the session goes on where it was. */
  lemma RefreshKeepsOrg(d: Directory, claims: Token, a: Answers, now: int)
    ensures
      var (d', r) := Refresh(d, claims, a, now);
      if claims.userId !in d.users || !d.users[claims.userId].enabled then r == Err(Unauthorized) && d' == d
      else
        var email := d.users[claims.userId].email;
        d' == AcceptPending(d, claims.userId, email, a, now).0 &&
        (r.Ok? <==> AcceptPending(d, claims.userId, email, a, now).1.Ok?) &&
        (r.Ok? ==> Refreshed(d, d', email, claims, r.value))
  {
    if claims.userId in d.users && d.users[claims.userId].enabled {
      var email := d.users[claims.userId].email;
      var (d', joined) := AcceptPending(d, claims.userId, email, a, now);
      if joined.Ok? {
        JoinedExactly(d, claims.userId, email, PendingFor(d.invites, email), a, now);
        if joined.value == [] {
          assert NoneJoined(d, d', claims.userId);
        } else {
          LastIsLast(d, claims.userId, email, a, now);
        }
      }
    }
  }

  /** Switching succeeds exactly into an org of the user's, with the role held there. */
  lemma SwitchIff(d: Directory, userId: int, orgId: int)
    ensures SwitchOrg(d, userId, orgId) ==
            if (orgId, userId) in d.members then Ok(Token(userId, orgId, Some(d.members[(orgId, userId)].role)))
            else Err(Forbidden)
  {
  }

  // -------------------------------------------------------------- logging in

  /** The org is the user's and no other of theirs comes before it, by the time of
      joining and then by id. */
  ghost predicate FirstOrg(d: Directory, userId: int, orgId: int) {
    (orgId, userId) in d.members &&
    forall o | (o, userId) in d.members ::
      d.members[(orgId, userId)].joinedAt < d.members[(o, userId)].joinedAt ||
      (d.members[(orgId, userId)].joinedAt == d.members[(o, userId)].joinedAt && orgId <= o)
  }

  /** The first org, by id, that takes in users of the email domain. */
  ghost predicate TakesIn(d: Directory, domain: string, orgId: int) {
    Takes(d, domain, orgId) && forall o :: Takes(d, domain, o) ==> orgId <= o
  }

  predicate Takes(d: Directory, domain: string, orgId: int) {
    orgId in d.orgs && d.orgs[orgId].autoJoin.Some? && EqualFold(d.orgs[orgId].autoJoin.value, domain)
  }

  ghost predicate Memberless(d: Directory, userId: int) {
    forall o :: (o, userId) !in d.members
  }

  /** A login lands in the org joined last by invite, if one was joined; else in the
      user's first org; else, for a user without an org, in the one that takes in the
      email's domain, if there is one and the policy allows it; and only then nowhere. */
  ghost predicate Landed(d: Directory, d1: Directory, d': Directory, email: string, domain: string, a: Answers,
                         t: Token) {
    if !NoneJoined(d, d1, t.userId)
    then d' == d1 && LastJoined(d, d1, t.userId, email, t.orgId) && t.role == Some(Member)
    else if !Memberless(d, t.userId) then
      d' == d1 && FirstOrg(d, t.userId, t.orgId) && t.role == Some(d.members[(t.orgId, t.userId)].role)
    else if a.autoPolicy == Allow && exists o :: TakesIn(d, domain, o) then
      TakesIn(d, domain, t.orgId) && t.role == Some(Member) && JoinedNow(d, d', t.userId, t.orgId)
    else d' == d1 && t.orgId == 0 && t.role == None
  }

  lemma ListingFirst(d: Directory, userId: int)
    requires Listing(d.members, userId) != []
    ensures FirstOrg(d, userId, Listing(d.members, userId)[0])
  {
    var list := Listing(d.members, userId);
    ListingInOrder(d.members, userId);
    assert list[0] in list;
    forall o | (o, userId) in d.members
      ensures o == list[0] || Before(d.members, userId, list[0], o)
    {
      assert o in list;
      var i :| 0 <= i < |list| && list[i] == o;
    }
  }

  /** What a completed round leaves for the landing. */
  ghost predicate Settled(d: Directory, d1: Directory, userId: int, email: string, joined: seq<int>) {
    && d1.orgs == d.orgs
    && (forall o :: o in joined <==> JoinedNow(d, d1, userId, o))
    && (joined != [] ==> LastJoined(d, d1, userId, email, joined[|joined| - 1]) &&
                         RoleOf(d1.members, joined[|joined| - 1], userId) == Some(Member))
    && (forall k :: k in d.members ==> k in d1.members && d1.members[k] == d.members[k])
  }

  lemma RoundSettled(d: Directory, userId: int, email: string, a: Answers, now: int)
    requires AcceptPending(d, userId, email, a, now).1.Ok?
    ensures
      var (d1, joined) := AcceptPending(d, userId, email, a, now);
      Settled(d, d1, userId, email, joined.value)
  {
    var ids := PendingFor(d.invites, email);
    var r := AcceptPending(d, userId, email, a, now).1;
    JoinedExactly(d, userId, email, ids, a, now);
    JoinedAreMembers(d, userId, email, ids, a, now);
    AcceptAllExtends(d, userId, email, ids, a, now);
    if r.value != [] {
      LastIsLast(d, userId, email, a, now);
      assert r.value[|r.value| - 1] in r.value;
    }
  }

  lemma SameFirst(d: Directory, d1: Directory, userId: int, orgId: int)
    requires FirstOrg(d1, userId, orgId) && NoneJoined(d, d1, userId)
    requires forall k :: k in d.members ==> k in d1.members && d1.members[k] == d.members[k]
    ensures FirstOrg(d, userId, orgId)
  {
    assert !JoinedNow(d, d1, userId, orgId);
  }

  lemma LandsAt(d: Directory, d1: Directory, userId: int, email: string, domain: string, joined: seq<int>, a: Answers,
                now: int)
    requires Settled(d, d1, userId, email, joined) && Land(d1, userId, domain, joined, a, now).1.Ok?
    ensures
      var (d', r) := Land(d1, userId, domain, joined, a, now);
      r.value.userId == userId && Landed(d, d1, d', email, domain, a, r.value)
  {
    var list := Listing(d1.members, userId);
    if joined != [] {
      assert JoinedNow(d, d1, userId, joined[|joined| - 1]);
    } else {
      assert NoneJoined(d, d1, userId);
      if list != [] {
        ListingFirst(d1, userId);
        SameFirst(d, d1, userId, list[0]);
      } else {
        assert Memberless(d, userId) by { assert forall o :: (o, userId) in d1.members ==> o in list; }
        TakenIn(d, domain);
      }
    }
  }

  lemma TakenIn(d: Directory, domain: string)
    ensures match AutoJoinOrg(d.orgs, domain)
            case None => forall o :: !TakesIn(d, domain, o)
            case Some(o) => TakesIn(d, domain, o)
  {
    assert forall o :: Takes(d, domain, o) <==> JoinsBy(d.orgs, o, domain);
    assert forall o :: TakesIn(d, domain, o) <==> FirstJoinable(d.orgs, o, domain);
  }

  lemma EnterLands(d: Directory, userId: int, email: string, domain: string, a: Answers, now: int)
    requires Enter(d, userId, email, domain, a, now).1.Ok?
    ensures
      var (d', r) := Enter(d, userId, email, domain, a, now);
      r.value.userId == userId &&
      Landed(d, AcceptPending(d, userId, email, a, now).0, d', email, domain, a, r.value)
  {
    var (d1, joined) := AcceptPending(d, userId, email, a, now);
    RoundSettled(d, userId, email, a, now);
    LandsAt(d, d1, userId, email, domain, joined.value, a, now);
  }

  /** An email is a local part and a domain, both non-empty, split at its last '@'. */
  lemma SplitIff(email: string, local: string, domain: string)
    ensures SplitEmail(email) == Some((local, domain)) <==>
            email == local + "@" + domain && local != "" && domain != "" && '@' !in domain
  {
    var at := LastIndexOf(email, '@');
    if email == local + "@" + domain && local != "" && domain != "" && '@' !in domain {
      assert email[|local|] == '@' && email[|local| + 1..] == domain && email[..|local|] == local;
      assert forall k :: |local| < k < |email| ==> email[k] in domain;
    } else if 0 < at < |email| - 1 {
      assert email == email[..at] + "@" + email[at + 1..];
    }
  }

  /** The user of an email is the one row that has it, up to case, or a new enabled one;
      nothing else changes. */
  lemma ProvisionedUser(d: Directory, email: string)
    requires Inv(d)
    ensures
      var (d0, userId) := Provision(d, email);
      if exists u :: u in d.users && EqualFold(d.users[u].email, email)
      then d0 == d && userId in d.users && EqualFold(d.users[userId].email, email)
      else userId !in d.users && d0 == d.(users := d.users[userId := User(email, true)], nextUser := d.nextUser + 1)
  {
    if u :| u in d.users && EqualFold(d.users[u].email, email) { assert HasEmail(d.users, u, email); }
  }

  /** Logging in: refused exactly when the text is no email; the user of the email, made
      when there is none, lands as Landed says, and is without an org only if in none. */
  lemma LoginLands(d: Directory, rawEmail: string, a: Answers, now: int)
    ensures
      var email := Lower(TrimSpace(rawEmail));
      var (d', r) := Login(d, rawEmail, a, now);
      if SplitEmail(email).None? then r == Err(Unauthorized) && d' == d
      else
        var (d0, userId) := Provision(d, email);
        var (d1, joined) := AcceptPending(d0, userId, email, a, now);
        r.Ok? ==> joined.Ok? && r.value.userId == userId &&
                  Landed(d0, d1, d', email, SplitEmail(email).value.1, a, r.value) &&
                  (r.value.role == None <==> Memberless(d', userId)) && (r.value.role == None ==> r.value.orgId == 0)
  {
    var email := Lower(TrimSpace(rawEmail));
    var r := Login(d, rawEmail, a, now).1;
    if SplitEmail(email).Some? && r.Ok? {
      var (d0, userId) := Provision(d, email);
      EnterLands(d0, userId, email, SplitEmail(email).value.1, a, now);
      OrglessIff(d0, userId, email, SplitEmail(email).value.1, a, now);
    }
  }

  /** A login of an email goes through if and only if its round of invites does and then,
      for a user without an org whose domain an org takes in, neither the policy check
      fails nor, when it allows, the insert. A denial is no error. */
  lemma LoginGoesThroughIff(d: Directory, rawEmail: string, a: Answers, now: int)
    requires SplitEmail(Lower(TrimSpace(rawEmail))).Some?
    ensures
      var email := Lower(TrimSpace(rawEmail));
      var (d0, userId) := Provision(d, email);
      var (d1, joined) := AcceptPending(d0, userId, email, a, now);
      Login(d, rawEmail, a, now).1.Ok? <==>
      joined.Ok? && !StopsJoining(d1, userId, SplitEmail(email).value.1, a)
  {
    var email := Lower(TrimSpace(rawEmail));
    var domain := SplitEmail(email).value.1;
    var (d0, userId) := Provision(d, email);
    var d1 := AcceptPending(d0, userId, email, a, now).0;
    TakenIn(d1, domain);
    ListedIff(d1, userId);
  }

  /** Joining by domain fails. */
  ghost predicate StopsJoining(d: Directory, userId: int, domain: string, a: Answers) {
    Memberless(d, userId) &&
    exists o :: TakesIn(d, domain, o) && (a.autoPolicy == Broken || (a.autoPolicy == Allow && a.addFails(o)))
  }

  lemma ListedIff(d: Directory, userId: int)
    ensures Listing(d.members, userId) == [] <==> Memberless(d, userId)
  {
    var list := Listing(d.members, userId);
    if list != [] { assert list[0] in list; }
  }

  /** Asking who one is accepts the pending invites too, for a user who exists. */
  lemma MeAccepts(d: Directory, userId: int, a: Answers, now: int)
    ensures
      var (d', r) := Me(d, userId, a, now);
      if userId !in d.users then r == Err(Unauthorized) && d' == d
      else
        var (d1, joined) := AcceptPending(d, userId, d.users[userId].email, a, now);
        d' == d1 && (r.Ok? <==> joined.Ok?) && (r.Ok? ==> r.value == userId)
  {
  }

  lemma OrglessIff(d: Directory, userId: int, email: string, domain: string, a: Answers, now: int)
    requires Enter(d, userId, email, domain, a, now).1.Ok?
    ensures
      var (d', r) := Enter(d, userId, email, domain, a, now);
      (r.value.role == None <==> Memberless(d', userId)) && (r.value.role == None ==> r.value.orgId == 0)
  {
    var (d1, joined) := AcceptPending(d, userId, email, a, now);
    ListedIff(d1, userId);
    LandJustified(d1, userId, domain, joined.value, a, now);
  }

  // ----------------------------------------------------------- org management

  predicate IsOwner(d: Directory, orgId: int, userId: int) {
    (orgId, userId) in d.members && d.members[(orgId, userId)].role == Owner
  }

  /** An owner removes a member unless it is the org's last owner; the membership goes
      and nothing else, and a refused removal changes nothing. */
  lemma RemovedIff(d: Directory, orgId: int, actorId: int, targetId: int)
    ensures
      var (d', r) := RemoveMember(d, orgId, actorId, targetId);
      (r.Ok? <==> IsOwner(d, orgId, actorId) && (orgId, targetId) in d.members &&
                  (IsOwner(d, orgId, targetId) ==> exists u :: u != targetId && IsOwner(d, orgId, u))) &&
      d' == (if r.Ok? then d.(members := d.members - {(orgId, targetId)}) else d)
  {
    var owners, target := Owners(d.members, orgId), (orgId, targetId);
    if target in owners {
      var others := owners - {target};
      assert |others| == |owners| - 1;
      if u :| u != targetId && IsOwner(d, orgId, u) { assert (orgId, u) in others; }
      if others != {} {
        var k := Pick(others);
        assert k.1 != targetId && IsOwner(d, orgId, k.1);
      }
    }
  }

  predicate IsEmail(email: string) {
    SplitEmail(email).Some?
  }

  lemma PendingIsInvited(d: Directory, orgId: int, email: string)
    ensures HasPending(d.invites, orgId, email) <==> Invited(d, email, orgId)
  {
    assert forall i :: IsInvited(d, email, orgId, i) <==>
      0 <= i < |d.invites| && d.invites[i].orgId == orgId && EqualFold(d.invites[i].email, email) &&
      d.invites[i].status == Pending;
  }

  lemma TheUser(users: map<int, User>, email: string)
    requires OneUserPerEmail(users)
    ensures forall u :: HasEmail(users, u, email) <==> UserByEmail(users, email) == Some(u)
  {
    forall u ensures HasEmail(users, u, email) <==> UserByEmail(users, email) == Some(u) {
      var user := UserByEmail(users, email);
      if HasEmail(users, u, email) { assert HasEmail(users, user.value, email); }
    }
  }

  /** Nobody of the email is in the org, and no invite to it is pending. */
  ghost predicate Invitable(d: Directory, orgId: int, email: string) {
    (forall u :: HasEmail(d.users, u, email) ==> (orgId, u) !in d.members) && !Invited(d, email, orgId)
  }

  lemma InvitableIff(d: Directory, orgId: int, email: string)
    requires OneUserPerEmail(d.users)
    ensures
      var user := UserByEmail(d.users, email);
      Invitable(d, orgId, email) <==>
      !(user.Some? && RoleOf(d.members, orgId, user.value).Some?) && !HasPending(d.invites, orgId, email)
  {
    PendingIsInvited(d, orgId, email);
    TheUser(d.users, email);
  }

  lemma InvitedWhen(d: Directory, orgId: int, actorId: int, rawEmail: string, policy: Policy, free: bool)
    requires
      var email := Lower(TrimSpace(rawEmail));
      var user := UserByEmail(d.users, email);
      free == (!(user.Some? && RoleOf(d.members, orgId, user.value).Some?) && !HasPending(d.invites, orgId, email))
    ensures
      var email := Lower(TrimSpace(rawEmail));
      var (d', r) := CreateInvite(d, orgId, actorId, rawEmail, policy);
      (r.Ok? <==> IsOwner(d, orgId, actorId) && IsEmail(email) && policy == Allow && free) &&
      (r.Ok? ==> r.value == |d.invites| && d' == d.(invites := d.invites + [Invite(orgId, email, Pending)])) &&
      (r.Err? ==> d' == d)
  {
  }

  /** An owner invites an address that is an email, of no member, and not invited
      already, when the policy allows it; the new invite is pending, and last. */
  lemma InvitedIff(d: Directory, orgId: int, actorId: int, rawEmail: string, policy: Policy)
    requires OneUserPerEmail(d.users)
    ensures
      var email := Lower(TrimSpace(rawEmail));
      var (d', r) := CreateInvite(d, orgId, actorId, rawEmail, policy);
      (r.Ok? <==> IsOwner(d, orgId, actorId) && IsEmail(email) && policy == Allow && Invitable(d, orgId, email)) &&
      (r.Ok? ==> r.value == |d.invites| && d' == d.(invites := d.invites + [Invite(orgId, email, Pending)])) &&
      (r.Err? ==> d' == d)
  {
    var email := Lower(TrimSpace(rawEmail));
    InvitableIff(d, orgId, email);
    InvitedWhen(d, orgId, actorId, rawEmail, policy, Invitable(d, orgId, email));
  }

  /** An owner revokes a pending invite of the own org, and nothing else. */
  lemma RevokedIff(d: Directory, orgId: int, actorId: int, i: int)
    ensures
      var (d', r) := RevokeInvite(d, orgId, actorId, i);
      (r.Ok? <==> IsOwner(d, orgId, actorId) && 0 <= i < |d.invites| && d.invites[i].orgId == orgId &&
                  d.invites[i].status == Pending) &&
      d' == (if r.Ok? then d.(invites := d.invites[i := Invite(orgId, d.invites[i].email, Revoked)]) else d)
  {
  }

  /** A created org has the trimmed name, a slug of its own, and its creator as owner. */
  lemma OrgCreated(d: Directory, userId: int, name: string, domain: string, policy: Policy, slug: Option<string>,
                   addFails: bool, now: int)
    requires Inv(d)
    ensures
      var (d', r) := CreateOrg(d, userId, name, domain, policy, slug, addFails, now);
      (r.Ok? <==> TrimSpace(name) != "" && NormalizeDomain(domain).Ok? && policy == Allow && slug.Some? &&
                  (forall o :: o in d.orgs ==> d.orgs[o].slug != slug.value) && !addFails && userId in d.users) &&
      (r.Ok? ==> r.value !in d.orgs &&
                 d' == d.(orgs := d.orgs[r.value := Org(TrimSpace(name), slug.value, NormalizeDomain(domain).value)],
                          nextOrg := d.nextOrg + 1,
                          members := d.members[(r.value, userId) := Membership(Owner, now)]))
  {
  }

  /** An owner renames the org or changes the domain it takes users in from; what is not
      given stays, and a blank name or a text that is no domain is refused. */
  lemma UpdatedIff(d: Directory, orgId: int, actorId: int, name: Option<string>, domain: Option<string>)
    ensures
      var (d', r) := UpdateOrg(d, orgId, actorId, name, domain);
      (r.Ok? <==> IsOwner(d, orgId, actorId) && orgId in d.orgs && (name.Some? ==> TrimSpace(name.value) != "") &&
                  (domain.Some? ==> NormalizeDomain(domain.value).Ok?)) &&
      (r.Err? ==> d' == d) &&
      (r.Ok? ==> r.value == orgId && d'.orgs.Keys == d.orgs.Keys && d' == d.(orgs := d'.orgs) &&
                 (forall o :: o in d.orgs && o != orgId ==> d'.orgs[o] == d.orgs[o]) &&
                 d'.orgs[orgId].slug == d.orgs[orgId].slug &&
                 d'.orgs[orgId].name == (if name.Some? then TrimSpace(name.value) else d.orgs[orgId].name) &&
                 d'.orgs[orgId].autoJoin ==
                 (if domain.Some? then NormalizeDomain(domain.value).value else d.orgs[orgId].autoJoin))
  {
  }

  /** A domain is stored trimmed and lower-cased, a blank one means none, and a text
      without a dot, or with one of "@/", a space or a tab, is refused. */
  lemma DomainStored(domain: string)
    ensures
      var text := Lower(TrimSpace(domain));
      var odd := exists i :: 0 <= i < |text| && (text[i] == '@' || text[i] == '/' || text[i] == ' ' || text[i] == '\t');
      NormalizeDomain(domain) ==
      if text == "" then Ok(None)
      else if odd || '.' !in text then Err(Unprocessable) else Ok(Some(text))
  {
    var text, odd := Lower(TrimSpace(domain)), "@/ \t";
    assert forall ch :: ch in odd <==> ch == '@' || ch == '/' || ch == ' ' || ch == '\t';
    assert forall i :: 0 <= i < |text| ==> text[i] in text;
  }
}
