/** Statements that arrive out of step with the reads they were based on: any
    statement may be issued at any time, on whatever was read before, and runs at
    any later time. */
module Interleaving {
  import opened Tables
  import opened Common

  /** The database and the statements issued but not yet run. */
  datatype Sys = Sys(db: Db, inflight: seq<Stmt>)

  /** A service decides on a statement, or the i-th undone statement runs. */
  datatype Event = Issue(stmt: Stmt) | Finish(i: nat)

  ghost function Complete(sys: Sys, i: nat): Sys {
    if i < |sys.inflight|
    then Sys(Exec(sys.db, sys.inflight[i]).0, sys.inflight[..i] + sys.inflight[i + 1..])
    else sys
  }

  ghost function Step(sys: Sys, e: Event): Sys {
    match e
    case Issue(s) => sys.(inflight := sys.inflight + [s])
    case Finish(i) => Complete(sys, i)
  }

  ghost function Schedule(sys: Sys, es: seq<Event>): Sys
    decreases |es|
  {
    if es == [] then sys else Schedule(Step(sys, es[0]), es[1..])
  }

  /** The unique keys, the single primary of an org, and primary implies approved
      (or verified) survive every schedule. */
  lemma {:induction false} ScheduleKeys(sys: Sys, es: seq<Event>)
    requires Keys(sys.db)
    ensures Keys(Schedule(sys, es).db)
    decreases |es|
  {
    if es != [] {
      if es[0].Finish? && es[0].i < |sys.inflight| {
        ExecKeys(sys.db, sys.inflight[es[0].i]);
      }
      ScheduleKeys(Step(sys, es[0]), es[1..]);
    }
  }

  /** Spelled out: in every reachable state each org has at most one primary
      prefix and a primary prefix is approved. */
  lemma OnePrimaryUnderInterleaving(es: seq<Event>)
    ensures
      var prefixes := Schedule(Sys(EMPTY, []), es).db.prefixes;
      (forall id | id in prefixes && prefixes[id].primary :: prefixes[id].status == Approved) &&
      (forall a, b | a in prefixes && b in prefixes && prefixes[a].primary && prefixes[b].primary &&
         prefixes[a].orgId == prefixes[b].orgId :: a == b)
  {
    ScheduleKeys(Sys(EMPTY, []), es);
    var prefixes := Schedule(Sys(EMPTY, []), es).db.prefixes;
    forall a, b | a in prefixes && b in prefixes && prefixes[a].primary && prefixes[b].primary &&
      prefixes[a].orgId == prefixes[b].orgId
      ensures a == b
    {
      assert IsPrimaryPrefix(prefixes, a, prefixes[a].orgId) && IsPrimaryPrefix(prefixes, b, prefixes[a].orgId);
    }
  }

  // ------------------------------------------------------------ one row's life

  /** The transitions of a prefix's status. */
  predicate Moves(a: PrefixStatus, b: PrefixStatus) {
    a == b || (a == Pending && (b == Approved || b == Rejected)) || (a == Approved && b == Revoked)
  }

  predicate Reaches(a: PrefixStatus, b: PrefixStatus) {
    Moves(a, b) || (a == Pending && b == Revoked)
  }

  /** What one statement may do to one prefix row: keep its org and value and
      move its status, or remove it: the owner unless revoked, the operator
      when revoked, or a new request of its value when rejected. */
  lemma StmtLife(prefixes: map<int, BrandPrefix>, next: int, s: Stmt, id: int)
    requires PrefixKeys(prefixes, next) && id in prefixes
    ensures
      var prefixes' := ExecPrefix(prefixes, next, s).0;
      if id in prefixes' then
        prefixes'[id].orgId == prefixes[id].orgId && prefixes'[id].prefix == prefixes[id].prefix &&
        Moves(prefixes[id].status, prefixes'[id].status) &&
        (prefixes'[id].status != prefixes[id].status ==> !prefixes'[id].primary)
      else
        match prefixes[id].status
        case Revoked => s == ReleasePrefix(id)
        case Rejected =>
          s == DeletePrefix(prefixes[id].orgId, id) || (s.InsertPrefix? && EqualFold(prefixes[id].prefix, s.value))
        case _ => s == DeletePrefix(prefixes[id].orgId, id)
  {
  }

  /** A new row has a new id and starts pending or approved, never primary. */
  lemma StmtBirth(prefixes: map<int, BrandPrefix>, next: int, s: Stmt, id: int)
    requires PrefixKeys(prefixes, next) && id !in prefixes && id in ExecPrefix(prefixes, next, s).0
    ensures id == next < ExecPrefix(prefixes, next, s).1
    ensures
      var p := ExecPrefix(prefixes, next, s).0[id];
      !p.primary && (p.status == Pending || p.status == Approved)
  {
  }

  /** The same row, further along. */
  ghost predicate Later(before: BrandPrefix, after: BrandPrefix) {
    before.orgId == after.orgId && before.prefix == after.prefix && Reaches(before.status, after.status)
  }

  lemma CompleteLife(sys: Sys, i: nat, id: int)
    requires Keys(sys.db) && id < sys.db.nextPrefix
    ensures
      var db' := Complete(sys, i).db;
      Keys(db') && id < db'.nextPrefix &&
      (id in db'.prefixes ==> id in sys.db.prefixes && Later(sys.db.prefixes[id], db'.prefixes[id]))
  {
    if i < |sys.inflight| {
      var s := sys.inflight[i];
      ExecKeys(sys.db, s);
      if id in sys.db.prefixes {
        StmtLife(sys.db.prefixes, sys.db.nextPrefix, s, id);
      } else if OfPrefixes(s) && id in Exec(sys.db, s).0.prefixes {
        StmtBirth(sys.db.prefixes, sys.db.nextPrefix, s, id);
      }
    }
  }

  /** Ids are never reused, so a row present at both ends of a schedule is the
      same row, and its status only moved along the lifecycle. */
  lemma {:induction false} ScheduleLife(sys: Sys, es: seq<Event>, id: int)
    requires Keys(sys.db) && id < sys.db.nextPrefix
    ensures
      var end := Schedule(sys, es).db.prefixes;
      id in end ==> id in sys.db.prefixes && Later(sys.db.prefixes[id], end[id])
    decreases |es|
  {
    if es != [] {
      if es[0].Finish? { CompleteLife(sys, es[0].i, id); }
      ScheduleLife(Step(sys, es[0]), es[1..], id);
    }
  }

  // ------------------------------------------------------- revoked stays held

  ghost predicate NoRelease(sys: Sys, es: seq<Event>, id: int) {
    ReleasePrefix(id) !in sys.inflight && Issue(ReleasePrefix(id)) !in es
  }

  /** The row and its value are held by a revoked prefix. */
  ghost predicate HeldRevoked(db: Db, id: int, p: BrandPrefix) {
    id in db.prefixes && db.prefixes[id].status == Revoked &&
    db.prefixes[id].orgId == p.orgId && db.prefixes[id].prefix == p.prefix
  }

  lemma CompleteKeepsRevoked(sys: Sys, i: nat, id: int, p: BrandPrefix)
    requires Keys(sys.db) && HeldRevoked(sys.db, id, p) && ReleasePrefix(id) !in sys.inflight
    ensures HeldRevoked(Complete(sys, i).db, id, p) && ReleasePrefix(id) !in Complete(sys, i).inflight
  {
    if i < |sys.inflight| {
      assert sys.inflight[i] in sys.inflight;
      StmtLife(sys.db.prefixes, sys.db.nextPrefix, sys.inflight[i], id);
    }
  }

  /** A revoked prefix stays, revoked and unclaimable by every org in any
      spelling, until an operator releases it, whatever is in flight. */
  lemma {:induction false} RevokedStaysHeld(sys: Sys, es: seq<Event>, id: int, p: BrandPrefix)
    requires Keys(sys.db) && HeldRevoked(sys.db, id, p) && NoRelease(sys, es, id)
    ensures HeldRevoked(Schedule(sys, es).db, id, p) && Keys(Schedule(sys, es).db)
    decreases |es|
  {
    if es != [] {
      assert es[0] in es && forall e :: e in es[1..] ==> e in es;
      if es[0].Finish? {
        CompleteKeepsRevoked(sys, es[0].i, id, p);
        CompleteKeys(sys, es[0].i);
      }
      RevokedStaysHeld(Step(sys, es[0]), es[1..], id, p);
    }
  }

  lemma CompleteKeys(sys: Sys, i: nat)
    requires Keys(sys.db)
    ensures Keys(Complete(sys, i).db)
  {
    if i < |sys.inflight| { ExecKeys(sys.db, sys.inflight[i]); }
  }

  /** While it is held, inserting its value is refused and changes nothing. */
  lemma RevokedUnclaimable(db: Db, id: int, p: BrandPrefix, orgId: int, value: string, approved: bool)
    requires HeldRevoked(db, id, p) && EqualFold(p.prefix, value)
    ensures Exec(db, InsertPrefix(orgId, value, approved)) == (db, false)
  {
    assert HasPrefix(db.prefixes, id, value);
  }
}
