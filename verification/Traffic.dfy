/** Resolutions that overlap: a request finds its link on the tables as they are, and
    its two writes run later, in any order and among the writes of everything else. */
module Traffic {
  import opened Common
  import opened Tables
  import opened Services
  import opened Resolver
  import opened Interleaving
  import opened Clicks

  /** A request arrives and resolves or not, a service decides on a statement, or the
      i-th undone statement runs. */
  datatype Happening = Arrive(req: Request) | Decide(stmt: Stmt) | Write(i: nat)

  /** The link that an arriving request is sent on by. */
  ghost function Resolved(c: Config, db: Db, req: Request): Option<Found> {
    match Reached(c, db, req)
    case Err(_) => None
    case Ok(f) => if f.id in db.links && Unavailable(db.links[f.id], req.now).None? then Some(f) else None
  }

  /** The writes a resolution issues. */
  ghost function Writes(c: Config, db: Db, req: Request): seq<Stmt> {
    match Resolved(c, db, req)
    case None => []
    case Some(f) => TwoWrites(req, f.id, ClickFor(c, db, req, f))
  }

  function TwoWrites(req: Request, id: int, click: Click): seq<Stmt> {
    (if req.visitFails then [] else [RecordVisit(id, req.now)]) + (if req.clickFails then [] else [InsertClick(click)])
  }

  ghost function Next(c: Config, sys: Sys, h: Happening): Sys {
    match h
    case Arrive(req) => sys.(inflight := sys.inflight + Writes(c, sys.db, req))
    case Decide(s) => sys.(inflight := sys.inflight + [s])
    case Write(i) => Complete(sys, i)
  }

  ghost function Run(c: Config, sys: Sys, hs: seq<Happening>): Sys
    decreases |hs|
  {
    if hs == [] then sys else Run(c, Next(c, sys, hs[0]), hs[1..])
  }

  /** A resolution that nothing interrupts leaves what its writes leave in a row. */
  lemma UninterruptedIsServed(c: Config, db: Db, req: Request, f: Found)
    requires Reached(c, db, req) == Ok(f) && f.id in db.links && Unavailable(db.links[f.id], req.now).None?
    ensures Served(c, db, req, f).0 == RunAll(db, Writes(c, db, req))
  {
    var visit, click := RecordVisit(f.id, req.now), InsertClick(ClickFor(c, db, req, f));
    RunAllOne(db, visit);
    RunAllOne(db, click);
    RunAllTwo(db, visit, click);
    var none: seq<Stmt> := [];
    assert [visit] + none == [visit] && none + [click] == [click];
  }

  ghost function RunAll(db: Db, stmts: seq<Stmt>): Db
    decreases |stmts|
  {
    if stmts == [] then db else RunAll(Exec(db, stmts[0]).0, stmts[1..])
  }

  lemma RunAllOne(db: Db, s: Stmt)
    ensures RunAll(db, [s]) == Exec(db, s).0
  {
    assert [s][1..] == [];
  }

  lemma RunAllTwo(db: Db, s: Stmt, t: Stmt)
    ensures RunAll(db, [s] + [t]) == Exec(Exec(db, s).0, t).0
  {
    assert ([s] + [t])[1..] == [t];
    RunAllOne(Exec(db, s).0, t);
  }

  // ------------------------------------------------------------------ counting

  function VisitOf(s: Stmt, link: int): nat {
    if s.RecordVisit? && s.id == link then 1 else 0
  }

  function ClickOf(s: Stmt, link: int): nat {
    if s.InsertClick? && s.click.linkId == link then 1 else 0
  }

  function VisitsIn(stmts: seq<Stmt>, link: int): nat {
    if stmts == [] then 0 else VisitsIn(stmts[..|stmts| - 1], link) + VisitOf(stmts[|stmts| - 1], link)
  }

  function ClicksIn(stmts: seq<Stmt>, link: int): nat {
    if stmts == [] then 0 else ClicksIn(stmts[..|stmts| - 1], link) + ClickOf(stmts[|stmts| - 1], link)
  }

  lemma {:induction false} CountsConcat(a: seq<Stmt>, b: seq<Stmt>, link: int)
    ensures VisitsIn(a + b, link) == VisitsIn(a, link) + VisitsIn(b, link)
    ensures ClicksIn(a + b, link) == ClicksIn(a, link) + ClicksIn(b, link)
  {
    if b == [] {
      assert a + b == a;
    } else {
      CountsConcat(a, b[..|b| - 1], link);
      assert (a + b)[..|a + b| - 1] == a + b[..|b| - 1];
    }
  }

  lemma CountsOne(s: Stmt, link: int)
    ensures VisitsIn([s], link) == VisitOf(s, link) && ClicksIn([s], link) == ClickOf(s, link)
  {
    assert [s][..0] == [];
  }

  lemma CountsWithout(stmts: seq<Stmt>, i: nat, link: int)
    requires i < |stmts|
    ensures VisitsIn(stmts, link) == VisitsIn(stmts[..i] + stmts[i + 1..], link) + VisitOf(stmts[i], link)
    ensures ClicksIn(stmts, link) == ClicksIn(stmts[..i] + stmts[i + 1..], link) + ClickOf(stmts[i], link)
  {
    var before, after := stmts[..i], stmts[i + 1..];
    assert stmts == before + ([stmts[i]] + after);
    CountsConcat(before, [stmts[i]] + after, link);
    CountsConcat([stmts[i]], after, link);
    CountsConcat(before, after, link);
    CountsOne(stmts[i], link);
  }

  /** How often an arriving request resolves to the link. */
  ghost function ResolvedTo(c: Config, db: Db, req: Request, link: int): nat {
    var f := Resolved(c, db, req);
    if f.Some? && f.value.id == link then 1 else 0
  }

  lemma TwoWritesCount(req: Request, id: int, click: Click, link: int)
    requires click.linkId == id
    ensures VisitsIn(TwoWrites(req, id, click), link) == if req.visitFails || id != link then 0 else 1
    ensures ClicksIn(TwoWrites(req, id, click), link) == if req.clickFails || id != link then 0 else 1
  {
    CountsOne(RecordVisit(id, req.now), link);
    CountsOne(InsertClick(click), link);
    var none: seq<Stmt> := [];
    CountsConcat(if req.visitFails then none else [RecordVisit(id, req.now)],
                 if req.clickFails then none else [InsertClick(click)], link);
  }

  lemma WritesCount(c: Config, db: Db, req: Request, link: int)
    ensures VisitsIn(Writes(c, db, req), link) == if req.visitFails then 0 else ResolvedTo(c, db, req, link)
    ensures ClicksIn(Writes(c, db, req), link) == if req.clickFails then 0 else ResolvedTo(c, db, req, link)
  {
    var f := Resolved(c, db, req);
    if f.Some? { TwoWritesCount(req, f.value.id, ClickFor(c, db, req, f.value), link); }
  }

  // ------------------------------------------------------------------- soundness

  /** What a statement in flight refers to is there, and stays there. */
  ghost predicate Founded(db: Db, s: Stmt) {
    && (s.RecordVisit? ==> s.id in db.links)
    && (s.InsertClick? ==> ClickSound(db, s.click))
    && (s.InsertPrefix? ==> s.orgId >= 1)
  }

  ghost predicate AllFounded(db: Db, stmts: seq<Stmt>) {
    forall i :: 0 <= i < |stmts| ==> Founded(db, stmts[i])
  }

  ghost predicate Sound(sys: Sys) {
    Keys(sys.db) && PrefixOrgs(sys.db) && ClicksSound(sys.db) && AllFounded(sys.db, sys.inflight)
  }

  /** What services decide on is none of a resolution's writes. */
  ghost predicate Genuine(hs: seq<Happening>) {
    forall i :: 0 <= i < |hs| && hs[i].Decide? ==> OfService(hs[i].stmt)
  }

  predicate OfService(s: Stmt) {
    !s.RecordVisit? && !s.InsertClick? && (s.InsertPrefix? ==> s.orgId >= 1)
  }

  lemma StmtKeepsFounded(db: Db, s: Stmt, t: Stmt)
    requires Keys(db) && Founded(db, t)
    ensures Founded(Exec(db, s).0, t)
  {
    if t.InsertClick? { StmtKeepsClick(db, s, t.click); }
  }

  lemma StmtKeepsOrgs(db: Db, s: Stmt)
    requires PrefixOrgs(db) && Founded(db, s)
    ensures PrefixOrgs(Exec(db, s).0)
  {
  }

  lemma ExecSound(db: Db, s: Stmt)
    requires Keys(db) && ClicksSound(db) && Founded(db, s)
    ensures ClicksSound(Exec(db, s).0)
  {
    if s.InsertClick? {
      RecordClickOnly(db, s.click, 0);
    } else {
      StmtKeepsClicks(db, s);
    }
  }

  /** A statement counts exactly as it is counted in flight. */
  lemma ExecCounts(db: Db, s: Stmt, link: int)
    requires Keys(db) && ClicksSound(db) && Founded(db, s)
    ensures VisitsOf(Exec(db, s).0.links, link) == VisitsOf(db.links, link) + VisitOf(s, link)
    ensures ClicksOf(Exec(db, s).0.clicks, link) == ClicksOf(db.clicks, link) + ClickOf(s, link)
  {
    if s.InsertClick? {
      RecordClickOnly(db, s.click, link);
    } else {
      StmtKeepsClicks(db, s);
      if !s.RecordVisit? { StmtKeepsVisits(db.links, db.nextLink, s, link); }
    }
  }

  lemma CompleteSound(sys: Sys, i: nat)
    requires Sound(sys) && i < |sys.inflight|
    ensures Sound(Complete(sys, i))
  {
    var s := sys.inflight[i];
    ExecKeys(sys.db, s);
    StmtKeepsOrgs(sys.db, s);
    ExecSound(sys.db, s);
    var rest := sys.inflight[..i] + sys.inflight[i + 1..];
    forall j | 0 <= j < |rest| ensures Founded(Exec(sys.db, s).0, rest[j]) {
      StmtKeepsFounded(sys.db, s, if j < i then sys.inflight[j] else sys.inflight[j + 1]);
    }
  }

  /** Whatever a resolution writes is founded when it is issued; a PREFIX click's
      prefix belongs to its link's org. */
  lemma WritesFounded(c: Config, db: Db, req: Request)
    requires Keys(db) && PrefixOrgs(db)
    ensures AllFounded(db, Writes(c, db, req))
  {
    var f := Resolved(c, db, req);
    if f.Some? {
      ResolvedSound(c, db, req, f.value);
      TwoWritesFounded(db, req, f.value.id, ClickFor(c, db, req, f.value));
    }
  }

  lemma ResolvedSound(c: Config, db: Db, req: Request, f: Found)
    requires Keys(db) && PrefixOrgs(db) && Resolved(c, db, req) == Some(f)
    ensures ClickSound(db, ClickFor(c, db, req, f))
  {
    if f.scope.entry == PrefixEntry { PrefixReachesOwn(c, db, req); }
  }

  lemma TwoWritesFounded(db: Db, req: Request, id: int, click: Click)
    requires id in db.links && ClickSound(db, click)
    ensures AllFounded(db, TwoWrites(req, id, click))
  {
  }

  lemma AppendFounded(db: Db, a: seq<Stmt>, b: seq<Stmt>)
    requires AllFounded(db, a) && AllFounded(db, b)
    ensures AllFounded(db, a + b)
  {
  }

  // ---------------------------------------------------------------- conservation

  /** Counted and still to be counted. */
  ghost function VisitsDue(sys: Sys, link: int): nat {
    VisitsOf(sys.db.links, link) + VisitsIn(sys.inflight, link)
  }

  ghost function ClicksDue(sys: Sys, link: int): nat {
    ClicksOf(sys.db.clicks, link) + ClicksIn(sys.inflight, link)
  }

  /** What a happening adds to them. */
  ghost function TallyOf(c: Config, sys: Sys, h: Happening, link: int): Tally {
    if !h.Arrive? then NOTHING
    else
      var r := ResolvedTo(c, sys.db, h.req, link);
      Tally(r, if h.req.visitFails then 0 else r, if h.req.clickFails then 0 else r)
  }

  ghost function TallyRun(c: Config, sys: Sys, hs: seq<Happening>, link: int): Tally
    decreases |hs|
  {
    if hs == [] then NOTHING
    else Plus(TallyOf(c, sys, hs[0], link), TallyRun(c, Next(c, sys, hs[0]), hs[1..], link))
  }

  lemma NextConserved(c: Config, sys: Sys, h: Happening, link: int)
    requires Sound(sys) && (h.Decide? ==> OfService(h.stmt))
    ensures
      var sys', t := Next(c, sys, h), TallyOf(c, sys, h, link);
      Sound(sys') && VisitsDue(sys', link) == VisitsDue(sys, link) + t.visits &&
      ClicksDue(sys', link) == ClicksDue(sys, link) + t.clicks
  {
    match h
    case Arrive(req) =>
      WritesFounded(c, sys.db, req);
      AppendFounded(sys.db, sys.inflight, Writes(c, sys.db, req));
      WritesCount(c, sys.db, req, link);
      CountsConcat(sys.inflight, Writes(c, sys.db, req), link);
    case Decide(s) =>
      AppendFounded(sys.db, sys.inflight, [s]);
      CountsOne(s, link);
      CountsConcat(sys.inflight, [s], link);
    case Write(i) =>
      if i < |sys.inflight| {
        CompleteSound(sys, i);
        ExecCounts(sys.db, sys.inflight[i], link);
        CountsWithout(sys.inflight, i, link);
      }
  }

  /** Conservation however requests and services overlap: a link's counter and its click
      rows, with the writes still in flight, grow by exactly the resolutions whose write
      does not fail, and every click row stays sound. */
  lemma {:induction false} TrafficConserved(c: Config, sys: Sys, hs: seq<Happening>, link: int)
    requires Sound(sys) && Genuine(hs)
    ensures
      var end, t := Run(c, sys, hs), TallyRun(c, sys, hs, link);
      Sound(end) && VisitsDue(end, link) == VisitsDue(sys, link) + t.visits &&
      ClicksDue(end, link) == ClicksDue(sys, link) + t.clicks
    decreases |hs|
  {
    if hs != [] {
      NextConserved(c, sys, hs[0], link);
      TrafficConserved(c, Next(c, sys, hs[0]), hs[1..], link);
    }
  }

  ghost predicate NoneFails(hs: seq<Happening>) {
    forall i :: 0 <= i < |hs| && hs[i].Arrive? ==> !hs[i].req.visitFails && !hs[i].req.clickFails
  }

  lemma {:induction false} NoneFailsTally(c: Config, sys: Sys, hs: seq<Happening>, link: int)
    requires NoneFails(hs)
    ensures
      var t := TallyRun(c, sys, hs, link);
      t.visits == t.clicks == t.resolved
    decreases |hs|
  {
    if hs != [] { NoneFailsTally(c, Next(c, sys, hs[0]), hs[1..], link); }
  }

  /** From an empty deployment, with no failing write and once nothing is in flight:
      visits, click rows and resolutions of every link are the same number. */
  lemma QuietAgrees(c: Config, hs: seq<Happening>, link: int)
    requires Genuine(hs) && NoneFails(hs) && Run(c, Sys(EMPTY, []), hs).inflight == []
    ensures
      var end := Run(c, Sys(EMPTY, []), hs);
      VisitsOf(end.db.links, link) == ClicksOf(end.db.clicks, link) == TallyRun(c, Sys(EMPTY, []), hs, link).resolved &&
      ClicksSound(end.db)
  {
    TrafficConserved(c, Sys(EMPTY, []), hs, link);
    NoneFailsTally(c, Sys(EMPTY, []), hs, link);
  }
}
