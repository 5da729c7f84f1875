/** What atomic service calls are needed for: two calls that decide on the same
    state and then write one after the other. */
module Races {
  import opened Common
  import opened Tables
  import opened Reserved
  import opened Urls
  import opened Services
  import opened Links
  import opened Prefixes
  import opened Namespace
  import opened Interleaving

  /** Both statements are issued before either runs. */
  ghost function Race(db: Db, one: Stmt, two: Stmt): Db {
    Schedule(Sys(db, []), [Issue(one), Issue(two), Finish(0), Finish(0)]).db
  }

  lemma ScheduleCons(sys: Sys, e: Event, es: seq<Event>)
    ensures Schedule(sys, [e] + es) == Schedule(Step(sys, e), es)
  {
    assert ([e] + es)[1..] == es;
  }

  lemma FinishFirst(db: Db, s: Stmt, rest: seq<Stmt>)
    ensures Complete(Sys(db, [s] + rest), 0) == Sys(Exec(db, s).0, rest)
  {
    var inflight := [s] + rest;
    assert inflight[..0] + inflight[1..] == rest;
  }

  lemma TwoIssued(db: Db, one: Stmt, two: Stmt, es: seq<Event>)
    ensures Schedule(Sys(db, []), [Issue(one)] + ([Issue(two)] + es)) == Schedule(Sys(db, [one] + [two]), es)
  {
    ScheduleCons(Sys(db, []), Issue(one), [Issue(two)] + es);
    assert [] + [one] == [one];
    ScheduleCons(Sys(db, [one]), Issue(two), es);
  }

  lemma TwoFinished(db: Db, one: Stmt, two: Stmt)
    ensures Schedule(Sys(db, [one] + [two]), [Finish(0)] + ([Finish(0)] + [])).db == Exec(Exec(db, one).0, two).0
  {
    ScheduleCons(Sys(db, [one] + [two]), Finish(0), [Finish(0)] + []);
    FinishFirst(db, one, [two]);
    ScheduleCons(Sys(Exec(db, one).0, [two] + []), Finish(0), []);
    FinishFirst(Exec(db, one).0, two, []);
    assert [two] + [] == [two];
  }

  lemma RaceRuns(db: Db, one: Stmt, two: Stmt)
    ensures Race(db, one, two) == Exec(Exec(db, one).0, two).0
  {
    var end: seq<Event> := [Finish(0)] + ([Finish(0)] + []);
    TwoIssued(db, one, two, end);
    TwoFinished(db, one, two);
    assert [Issue(one), Issue(two), Finish(0), Finish(0)] == [Issue(one)] + ([Issue(two)] + end);
  }

  // ---------------------------------------------------------------- the cap

  lemma InsertedHeld(db: Db, s: Stmt)
    requires PrefixKeys(db.prefixes, db.nextPrefix) && s.InsertPrefix? && !IsHeld(db.prefixes, s.value)
    ensures HeldBy(Exec(db, s).0.prefixes, s.orgId) == HeldBy(db.prefixes, s.orgId) + {db.nextPrefix}
    ensures db.nextPrefix !in HeldBy(db.prefixes, s.orgId)
  {
    var held, held' := HeldBy(db.prefixes, s.orgId), HeldBy(Exec(db, s).0.prefixes, s.orgId);
    forall id | id in held ensures id in held' {
      assert HasPrefix(db.prefixes, id, s.value) <==> EqualFold(db.prefixes[id].prefix, s.value);
    }
  }

  lemma StillFree(db: Db, s: Stmt, other: string)
    requires s.InsertPrefix? && PrefixKeys(db.prefixes, db.nextPrefix)
    requires !IsHeld(db.prefixes, s.value) && !IsHeld(db.prefixes, other) && !EqualFold(s.value, other)
    ensures !IsHeld(Exec(db, s).0.prefixes, other)
  {
    var prefixes' := Exec(db, s).0.prefixes;
    forall id | HasPrefix(prefixes', id, other) ensures !Held(prefixes'[id]) {
      assert id != db.nextPrefix ==> HasPrefix(db.prefixes, id, other);
    }
  }

  lemma CapBreaks(db: Db, one: Stmt, two: Stmt)
    requires Keys(db) && one.InsertPrefix? && two.InsertPrefix? && one.orgId == two.orgId
    requires !IsHeld(db.prefixes, one.value) && !IsHeld(db.prefixes, two.value) && !EqualFold(one.value, two.value)
    requires |HeldBy(db.prefixes, one.orgId)| == MAX_PREFIXES_PER_ORG - 1
    ensures |HeldBy(Race(db, one, two).prefixes, one.orgId)| == MAX_PREFIXES_PER_ORG + 1
  {
    RaceRuns(db, one, two);
    ExecKeys(db, one);
    InsertedHeld(db, one);
    StillFree(db, one, two.value);
    InsertedHeld(Exec(db, one).0, two);
  }

  /** The cap of 20 needs atomic calls: two requests that both decide to write on 19
      held prefixes leave 21. */
  lemma CapNeedsAtomicity(c: Config, db: Db, one: Call, two: Call)
    requires Keys(db) && one.PrefixRequest? && two.PrefixRequest? && one.orgId == two.orgId
    requires PlanOf(c, db, one).Write? && PlanOf(c, db, two).Write?
    requires |HeldBy(db.prefixes, one.orgId)| == MAX_PREFIXES_PER_ORG - 1
    requires !EqualFold(TrimSpace(one.prefixInput.prefix), TrimSpace(two.prefixInput.prefix))
    ensures !Capped(Race(db, PlanOf(c, db, one).stmt, PlanOf(c, db, two).stmt).prefixes)
  {
    CapBreaks(db, PlanOf(c, db, one).stmt, PlanOf(c, db, two).stmt);
  }

  // --------------------------------------------- a deployment that gets there

  lemma {:induction false} RunSnoc(c: Config, db: Db, calls: seq<Call>, call: Call)
    ensures Run(c, db, calls + [call]) == Perform(Run(c, db, calls), PlanOf(c, Run(c, db, calls), call)).0
    decreases |calls|
  {
    if calls == [] {
      assert [call][1..] == [] && [] + [call] == [call];
    } else {
      assert (calls + [call])[1..] == calls[1..] + [call];
      RunSnoc(c, Perform(db, PlanOf(c, db, calls[0])).0, calls[1..], call);
    }
  }

  lemma ReachableNext(c: Config, db: Db, call: Call)
    requires Reachable(c, db) && Genuine(call)
    ensures Reachable(c, Perform(db, PlanOf(c, db, call)).0)
  {
    var calls :| LeadsTo(c, EMPTY, calls, db);
    NextLeads(c, db, calls, call);
  }

  lemma NextLeads(c: Config, db: Db, calls: seq<Call>, call: Call)
    requires LeadsTo(c, EMPTY, calls, db) && Genuine(call)
    ensures LeadsTo(c, EMPTY, calls + [call], Perform(db, PlanOf(c, db, call)).0)
  {
    RunSnoc(c, EMPTY, calls, call);
  }

  lemma EmptyReachable(c: Config)
    ensures Reachable(c, EMPTY)
  {
    assert LeadsTo(c, EMPTY, [], EMPTY);
  }

  const NAMES := 21

  /** Pairwise different prefixes. */
  function Name(i: nat): string
    requires i < NAMES
  {
    ['a', 'b', 'c', ('a' as int + i) as char]
  }

  lemma NamesDiffer(i: nat, j: nat)
    requires i < NAMES && j < NAMES && EqualFold(Name(i), Name(j))
    ensures i == j
  {
    assert Lower(Name(i))[3] == Lower(Name(j))[3];
  }

  function RequestFor(i: nat): Call
    requires i < NAMES
  {
    PrefixRequest(1, true, PrefixInput(Name(i), "", "1", Name(i), "Acme", true))
  }

  /** The deployment reserves and filters none of the names. */
  ghost predicate NamesAllowed(c: Config) {
    forall i | 0 <= i < NAMES :: !IsReserved(c.reserved, Name(i), false) && !c.explicit(Name(i))
  }

  lemma RequestWrites(c: Config, db: Db, i: nat)
    requires NamesAllowed(c) && i < NAMES && db.links == map[] && !IsHeld(db.prefixes, Name(i))
    requires |HeldBy(db.prefixes, 1)| < MAX_PREFIXES_PER_ORG
    ensures PlanOf(c, db, RequestFor(i)) == Write(InsertPrefix(1, Name(i), c.autoApprove), Internal)
  {
  }

  /** A reachable state in which org 1 holds the first n names. */
  ghost predicate Holding(c: Config, db: Db, n: nat) {
    Reachable(c, db) && Keys(db) && db.links == map[] && |HeldBy(db.prefixes, 1)| == n &&
    forall i | n <= i < NAMES :: !IsHeld(db.prefixes, Name(i))
  }

  lemma HoldMore(c: Config, db: Db, n: nat) returns (db': Db)
    requires NamesAllowed(c) && Holding(c, db, n) && n < MAX_PREFIXES_PER_ORG
    ensures Holding(c, db', n + 1)
  {
    var s := InsertPrefix(1, Name(n), c.autoApprove);
    RequestWrites(c, db, n);
    ReachableNext(c, db, RequestFor(n));
    ExecKeys(db, s);
    InsertedHeld(db, s);
    db' := Exec(db, s).0;
    forall i | n + 1 <= i < NAMES ensures !IsHeld(db'.prefixes, Name(i)) {
      if EqualFold(Name(n), Name(i)) { NamesDiffer(n, i); }
      StillFree(db, s, Name(i));
    }
  }

  lemma {:induction false} HoldMany(c: Config, n: nat) returns (db: Db)
    requires NamesAllowed(c) && n <= MAX_PREFIXES_PER_ORG
    ensures Holding(c, db, n)
  {
    if n == 0 {
      EmptyReachable(c);
      db := EMPTY;
    } else {
      db := HoldMany(c, n - 1);
      db := HoldMore(c, db, n - 1);
    }
  }

  ghost predicate CapRace(c: Config, db: Db, one: Call, two: Call) {
    Reachable(c, db) && Genuine(one) && Genuine(two) && PlanOf(c, db, one).Write? && PlanOf(c, db, two).Write? &&
    !Capped(Race(db, PlanOf(c, db, one).stmt, PlanOf(c, db, two).stmt).prefixes)
  }

  /** Such a race is reachable from the empty deployment. */
  lemma CapRaceReachable(c: Config)
    requires NamesAllowed(c)
    ensures exists db, one, two :: CapRace(c, db, one, two)
  {
    var db := HoldMany(c, 19);
    RequestWrites(c, db, 19);
    RequestWrites(c, db, 20);
    if EqualFold(Name(19), Name(20)) { NamesDiffer(19, 20); }
    CapNeedsAtomicity(c, db, RequestFor(19), RequestFor(20));
    assert CapRace(c, db, RequestFor(19), RequestFor(20));
  }

  // ---------------------------------------------- codes apart from prefixes

  /** Keeping codes off prefixes needs atomic calls: a rename and a request that both
      find the value free leave a code that equals a held prefix. */
  lemma SeparationNeedsAtomicity(c: Config, db: Db, request: Call, rename: Call)
    requires Keys(db) && request.PrefixRequest? && rename.Aliasing?
    requires PlanOf(c, db, request).Write? && PlanOf(c, db, rename).Write?
    requires EqualFold(TrimSpace(rename.alias), TrimSpace(request.prefixInput.prefix))
    ensures
      var db' := Race(db, PlanOf(c, db, request).stmt, PlanOf(c, db, rename).stmt);
      !Apart(db'.links, db'.prefixes)
  {
    ApartBreaks(db, PlanOf(c, db, request).stmt, PlanOf(c, db, rename).stmt);
  }

  lemma ApartBreaks(db: Db, request: Stmt, rename: Stmt)
    requires Keys(db) && request.InsertPrefix? && !IsHeld(db.prefixes, request.value)
    requires rename.UpdateCode? && !CodeExists(db.links, rename.code) && OwnedLink(db.links, rename.orgId, rename.id)
    requires EqualFold(rename.code, request.value)
    ensures !Apart(Race(db, request, rename).links, Race(db, request, rename).prefixes)
  {
    RaceRuns(db, request, rename);
    var end := Exec(Exec(db, request).0, rename).0;
    assert end.links[rename.id].code == rename.code;
    assert end.prefixes[db.nextPrefix].prefix == request.value && Held(end.prefixes[db.nextPrefix]);
  }

  const CODE := "alpha"
  const VALUE := "bravo"

  /** A shortening of https://example.org/x as "alpha". */
  function FirstLink(): Call {
    Shortening(1, Some(1), ShortenInput(Print("https", "example.org", "", "x"), "", CODE, Utms("", "", ""), None,
                                        Some([]), true, None, None),
               Outside(Allow, false, false, [], None))
  }

  function Rename(): Call { Aliasing(1, 1, 1, VALUE, false) }

  function Claim(): Call {
    PrefixRequest(1, true, PrefixInput(VALUE, "", "1", VALUE, "Acme", true))
  }

  ghost predicate WordsAllowed(c: Config) {
    !EqualFold("example.org", c.shortDomain) && !c.explicit(CODE) && !c.explicit(VALUE) && Nested(c.reserved) &&
    !IsReserved(c.reserved, CODE, false) && !IsReserved(c.reserved, VALUE, false)
  }

  lemma WordsValid()
    ensures TrimSpace(CODE) == CODE && TrimSpace(VALUE) == VALUE && AliasFormat(CODE) && AliasFormat(VALUE)
    ensures !EqualFold(CODE, VALUE)
    ensures ValidatePrefixInput(Claim().prefixInput) == Ok(VALUE)
  {
    TrimClean(CODE, IsSpace);
    TrimClean(VALUE, IsSpace);
    TrimClean("1", IsSpace);
    TrimClean("Acme", IsSpace);
    assert Lower(CODE)[0] != Lower(VALUE)[0];
  }

  lemma FirstUrl()
    ensures
      var text := Print("https", "example.org", "", "x");
      NormalizeUrl(text) == Ok(Url("https", "example.org", "/" + Tail("", "x"), text))
  {
    PrintNormalizes("https", "example.org", "", "x");
  }

  ghost function FirstPlan(c: Config): Plan {
    PlanShorten(c, EMPTY, 1, Some(1), FirstLink().input, FirstLink().outside)
  }

  lemma FirstIsCreation(c: Config)
    requires WordsAllowed(c)
    ensures
      var text := Print("https", "example.org", "", "x");
      FirstPlan(c) == PlanCreate(c, EMPTY, 1, Some(1), Public, Url("https", "example.org", "/" + Tail("", "x"), text),
                                 FirstLink().input, FirstLink().outside)
  {
    FirstUrl();
    var text := Print("https", "example.org", "", "x");
    assert NormalizeLinkType("") == Some(Public);
  }

  lemma CreationWrites(c: Config, dest: Url, input: ShortenInput, o: Outside)
    requires WordsAllowed(c) && o == Outside(Allow, false, false, [], None) && input.alias == CODE
    requires input.rules == Some([]) && ScheduleValid(input)
    ensures
      var plan := PlanCreate(c, EMPTY, 1, Some(1), Public, dest, input, o);
      plan.Write? && plan.stmt.InsertLink? && plan.stmt.link.orgId == 1 && plan.stmt.link.code == CODE &&
      plan.stmt.link.kind == Public
  {
    WordsValid();
    assert !HasVerified(EMPTY.domains, 1) && !IsHeld(EMPTY.prefixes, CODE) && !CodeExists(EMPTY.links, CODE);
  }

  ghost predicate OneLink(db: Db) {
    Keys(db) && db.prefixes == map[] && db.domains == map[] && db.links.Keys == {1} &&
    db.links[1].orgId == 1 && db.links[1].code == CODE && db.links[1].kind == Public
  }

  lemma InsertedOne(s: Stmt)
    requires s.InsertLink? && s.link.orgId == 1 && s.link.code == CODE && s.link.kind == Public
    ensures OneLink(Exec(EMPTY, s).0)
  {
    ExecKeys(EMPTY, s);
    assert !CodeExists(EMPTY.links, CODE);
  }

  lemma OneLinkReached(c: Config) returns (db: Db)
    requires WordsAllowed(c)
    ensures Reachable(c, db) && OneLink(db)
  {
    FirstIsCreation(c);
    CreationWrites(c, Url("https", "example.org", "/" + Tail("", "x"), Print("https", "example.org", "", "x")),
                   FirstLink().input, FirstLink().outside);
    EmptyReachable(c);
    ReachableNext(c, EMPTY, FirstLink());
    InsertedOne(FirstPlan(c).stmt);
    db := Perform(EMPTY, FirstPlan(c)).0;
  }

  lemma ValueFree(db: Db)
    requires OneLink(db)
    ensures !CodeExists(db.links, VALUE) && !IsHeld(db.prefixes, VALUE) && HeldBy(db.prefixes, 1) == {}
  {
    WordsValid();
  }

  lemma ClaimWrites(c: Config, db: Db)
    requires WordsAllowed(c) && OneLink(db)
    ensures PlanOf(c, db, Claim()).Write?
  {
    WordsValid();
    ValueFree(db);
  }

  lemma RenameWrites(c: Config, db: Db)
    requires WordsAllowed(c) && OneLink(db)
    ensures PlanOf(c, db, Rename()).Write?
  {
    WordsValid();
    ValueFree(db);
    assert !HasVerified(db.domains, 1);
  }

  ghost predicate SeparationRace(c: Config, db: Db, one: Call, two: Call) {
    Reachable(c, db) && Genuine(one) && Genuine(two) && PlanOf(c, db, one).Write? && PlanOf(c, db, two).Write? &&
    !Apart(Race(db, PlanOf(c, db, one).stmt, PlanOf(c, db, two).stmt).links,
           Race(db, PlanOf(c, db, one).stmt, PlanOf(c, db, two).stmt).prefixes)
  }

  lemma SeparationRaceReachable(c: Config)
    requires WordsAllowed(c)
    ensures exists db, one, two :: SeparationRace(c, db, one, two)
  {
    var db := OneLinkReached(c);
    ClaimWrites(c, db);
    RenameWrites(c, db);
    SeparationNeedsAtomicity(c, db, Claim(), Rename());
    assert SeparationRace(c, db, Claim(), Rename());
  }
}
