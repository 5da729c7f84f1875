/** The kid to public key cache over a JWK Set (section 5 of RFC 7517). A key
    is opaque; the endpoint's answers and the clock readings are inputs. */
module KeyCache {
  import opened Common

  type Key = string

  const SECOND := 1_000_000_000
  const REFETCH_COOLDOWN := 60 * SECOND
  const CACHE_TTL := 3600 * SECOND

  /** One entry of the document; parsed is None when rsaKeyFromJWK fails on it. */
  datatype Jwk = Jwk(kty: string, kid: string, parsed: Option<Key>)

  /** What the endpoint answers: a network, status or decoding failure, or a document. */
  datatype Response = Failed | Document(entries: seq<Jwk>)

  datatype Cache = Cache(keys: map<string, Key>, fetchedAt: int)

  predicate Usable(e: Jwk) {
    EqualFold(e.kty, "RSA") && e.kid != ""
  }

  /** The keys of a document: its usable entries, the last one of a kid winning,
      or None when one of them does not parse. */
  function Collect(entries: seq<Jwk>): Option<map<string, Key>> {
    if entries == [] then Some(map[])
    else
      var last := entries[|entries| - 1];
      match Collect(entries[..|entries| - 1])
      case None => None
      case Some(keys) =>
        if !Usable(last) then Some(keys)
        else if last.parsed.None? then None
        else Some(keys[last.kid := last.parsed.value])
  }

  /** The i-th entry is the last usable one of its key id. */
  ghost predicate IsLastOf(entries: seq<Jwk>, i: int) {
    0 <= i < |entries| && Usable(entries[i]) &&
    forall j | i < j < |entries| && Usable(entries[j]) :: entries[j].kid != entries[i].kid
  }

  lemma CollectPeels(entries: seq<Jwk>) returns (init: seq<Jwk>, e: Jwk)
    requires entries != []
    ensures entries == init + [e]
    ensures Collect(entries).None? <==> Collect(init).None? || (Usable(e) && e.parsed.None?)
    ensures Collect(entries).Some? && Usable(e) ==>
            Collect(entries).value == Collect(init).value[e.kid := e.parsed.value]
    ensures Collect(entries).Some? && !Usable(e) ==> Collect(entries) == Collect(init)
  {
    init, e := entries[..|entries| - 1], entries[|entries| - 1];
  }

  /** A document delivers keys unless an RSA entry with a key id does not parse, and then
      for the ids of its RSA entries. */
  lemma {:induction false} KeysOfRsaEntries(entries: seq<Jwk>)
    ensures Collect(entries).None? <==>
            exists e :: e in entries && EqualFold(e.kty, "RSA") && e.kid != "" && e.parsed.None?
    ensures Collect(entries).Some? ==> forall kid ::
              kid in Collect(entries).value <==>
              kid != "" && exists e :: e in entries && EqualFold(e.kty, "RSA") && e.kid == kid
  {
    if entries != [] {
      var init, e := CollectPeels(entries);
      KeysOfRsaEntries(init);
    }
  }

  /** Each id has the key of the last RSA entry that has it. */
  lemma {:induction false} LastKeyWins(entries: seq<Jwk>, i: int)
    requires Collect(entries).Some? && IsLastOf(entries, i)
    ensures entries[i].parsed.Some? && entries[i].kid in Collect(entries).value
    ensures Collect(entries).value[entries[i].kid] == entries[i].parsed.value
  {
    var init, e := CollectPeels(entries);
    if i < |init| { LastKeyWins(init, i); }
  }

  /** The key set a response delivers; a set without usable keys is a failure. */
  function Fetched(response: Response): (r: Option<map<string, Key>>)
    ensures r.Some? ==> r.value != map[]
  {
    match response
    case Failed => None
    case Document(entries) =>
      match Collect(entries)
      case None => None
      case Some(keys) => if keys == map[] then None else Some(keys)
  }

  /** One lookup: the kid, the two clock readings of the cache check, the
      endpoint's answer should it be asked, and the reading after the fetch. */
  datatype Lookup = Lookup(kid: string, checkedAt: int, recheckedAt: int, response: Response, doneAt: int)

  predicate Hit(c: Cache, l: Lookup) {
    l.kid in c.keys && l.checkedAt - c.fetchedAt < CACHE_TTL
  }

  predicate Asks(c: Cache, l: Lookup) {
    !Hit(c, l) && (l.recheckedAt - c.fetchedAt > REFETCH_COOLDOWN || c.keys == map[])
  }

  function Lookedup(c: Cache, l: Lookup): (Cache, Result<Key>) {
    if Hit(c, l) then (c, Ok(c.keys[l.kid]))
    else
      var c' := if Asks(c, l) && Fetched(l.response).Some? then Cache(Fetched(l.response).value, l.doneAt) else c;
      (c', if Asks(c, l) && Fetched(l.response).None? then Err(Internal)
           else if l.kid in c'.keys then Ok(c'.keys[l.kid])
           else Err(Internal))
  }

  class JwksCache {
    var keys: map<string, Key>
    var fetchedAt: int

    ghost function View(): Cache
      reads this
    {
      Cache(keys, fetchedAt)
    }

    constructor ()
      ensures View() == Cache(map[], 0)
    {
      keys, fetchedAt := map[], 0;
    }

    method Lookup(l: Lookup) returns (r: Result<Key>)
      modifies this
      ensures (View(), r) == Lookedup(old(View()), l)
    {
      if l.kid in keys && l.checkedAt - fetchedAt < CACHE_TTL {
        return Ok(keys[l.kid]);
      }
      if l.recheckedAt - fetchedAt > REFETCH_COOLDOWN || keys == map[] {
        var ok := Fetch(l.response, l.doneAt);
        if !ok { return Err(Internal); }
      }
      if l.kid !in keys { return Err(Internal); }
      return Ok(keys[l.kid]);
    }

    method Fetch(response: Response, now: int) returns (ok: bool)
      modifies this
      ensures ok <==> Fetched(response).Some?
      ensures View() == if ok then Cache(Fetched(response).value, now) else old(View())
    {
      if response.Failed? { return false; }
      var entries := response.entries;
      var collected: map<string, Key> := map[];
      assert entries[..|entries|] == entries;
      for i := 0 to |entries|
        invariant Collect(entries[..i]) == Some(collected)
        invariant View() == old(View())
      {
        assert entries[..i + 1][..i] == entries[..i];
        var e := entries[i];
        if Usable(e) {
          if e.parsed.None? {
            CollectFails(entries, i + 1);
            return false;
          }
          collected := collected[e.kid := e.parsed.value];
        }
      }
      if collected == map[] { return false; }
      keys, fetchedAt := collected, now;
      return true;
    }
  }

  lemma {:induction false} CollectFails(entries: seq<Jwk>, i: nat)
    requires i <= |entries| && Collect(entries[..i]).None?
    ensures Collect(entries).None?
    decreases |entries|
  {
    if i == |entries| {
      assert entries[..i] == entries;
    } else {
      assert entries[..|entries| - 1][..i] == entries[..i];
      CollectFails(entries[..|entries| - 1], i);
    }
  }

  // -------------------------------------------------------------------- runs

  /** One request to the endpoint; keys is None when it failed. */
  datatype Attempt = Attempt(startedAt: int, doneAt: int, keys: Option<map<string, Key>>)

  function Record(c: Cache, l: Lookup, trace: seq<Attempt>): seq<Attempt> {
    if Asks(c, l) then trace + [Attempt(l.recheckedAt, l.doneAt, Fetched(l.response))] else trace
  }

  /** The cache after the attempts so far: what the last successful one brought. */
  function Latest(trace: seq<Attempt>): Cache {
    if trace == [] then Cache(map[], 0)
    else
      var last := trace[|trace| - 1];
      if last.keys.Some? then Cache(last.keys.value, last.doneAt) else Latest(trace[..|trace| - 1])
  }

  function Run(c: Cache, trace: seq<Attempt>, ls: seq<Lookup>): (Cache, seq<Attempt>)
    decreases |ls|
  {
    if ls == [] then (c, trace) else Run(Lookedup(c, ls[0]).0, Record(c, ls[0], trace), ls[1..])
  }

  ghost predicate Timely(ls: seq<Lookup>, t: int) {
    && (forall i :: 0 <= i < |ls| ==> t <= ls[i].checkedAt <= ls[i].recheckedAt <= ls[i].doneAt)
    && (forall i, j :: 0 <= i < j < |ls| ==> ls[i].doneAt <= ls[j].checkedAt)
  }

  /** After a successful attempt every later one starts more than the cooldown
      after it was done. */
  ghost predicate Spaced(trace: seq<Attempt>) {
    forall i, j :: 0 <= i < j < |trace| && trace[i].keys.Some? ==>
      trace[j].startedAt - trace[i].doneAt > REFETCH_COOLDOWN
  }

  ghost predicate Tracked(c: Cache, trace: seq<Attempt>) {
    c == Latest(trace) && Spaced(trace) && forall i :: 0 <= i < |trace| ==> Covered(c, trace[i])
  }

  /** A successful attempt leaves the cache non-empty and at least as recent. */
  ghost predicate Covered(c: Cache, a: Attempt) {
    a.keys.Some? ==> a.keys.value != map[] && c.keys != map[] && a.doneAt <= c.fetchedAt
  }

  lemma TimelyRest(ls: seq<Lookup>, t: int)
    requires Timely(ls, t) && ls != []
    ensures Timely(ls[1..], ls[0].doneAt) && t <= ls[0].doneAt
  {
  }

  /** Over every run of lookups and endpoint answers: the cache holds what the
      last successful fetch brought, and any two successful fetches, and more
      generally a success and any later attempt, are more than the cooldown apart. */
  lemma {:induction false} RunTracked(c: Cache, trace: seq<Attempt>, ls: seq<Lookup>, t: int)
    requires Tracked(c, trace) && Timely(ls, t) && c.fetchedAt <= t
    ensures Tracked(Run(c, trace, ls).0, Run(c, trace, ls).1)
    ensures Run(c, trace, ls).0.fetchedAt <= if ls == [] then t else ls[|ls| - 1].doneAt
    decreases |ls|
  {
    if ls != [] {
      TimelyRest(ls, t);
      RunTracked(Lookedup(c, ls[0]).0, Record(c, ls[0], trace), ls[1..], ls[0].doneAt);
    }
  }

  lemma FetchesSpaced(ls: seq<Lookup>, t: nat)
    requires Timely(ls, t)
    ensures
      var (c, trace) := Run(Cache(map[], 0), [], ls);
      c == Latest(trace) && Spaced(trace)
  {
    RunTracked(Cache(map[], 0), [], ls, t);
  }

  /** A returned key is what the latest successful fetch maps the kid to, and that
      fetch is younger than the TTL or was made by this lookup. */
  ghost predicate FreshAnswer(c: Cache, trace: seq<Attempt>, l: Lookup) {
    var latest := Latest(Record(c, l, trace));
    Lookedup(c, l).1.Ok? ==>
      l.kid in latest.keys && Lookedup(c, l).1.value == latest.keys[l.kid] &&
      (l.checkedAt - latest.fetchedAt < CACHE_TTL || latest.fetchedAt == l.doneAt)
  }

  /** Freshness of every answer of every run from the empty cache. */
  lemma AnswersFresh(ls: seq<Lookup>, t: nat, i: nat)
    requires Timely(ls, t) && i < |ls|
    ensures
      var (c, trace) := Run(Cache(map[], 0), [], ls[..i]);
      FreshAnswer(c, trace, ls[i])
  {
    RunTracked(Cache(map[], 0), [], ls[..i], t);
    var (c, trace) := Run(Cache(map[], 0), [], ls[..i]);
  }

  /** Completeness: a kid of the latest set is answered while the set is fresh. */
  lemma FreshAnswered(c: Cache, trace: seq<Attempt>, l: Lookup)
    requires Tracked(c, trace) && l.kid in Latest(trace).keys && l.checkedAt - Latest(trace).fetchedAt < CACHE_TTL
    ensures Lookedup(c, l) == (c, Ok(Latest(trace).keys[l.kid])) && Record(c, l, trace) == trace
  {
  }

  // --------------------------------------------------- what failures do

  /** A request keeps the promised distance to an earlier one. */
  predicate Apart(earlier: Attempt, startedAt: int) {
    startedAt - earlier.doneAt > REFETCH_COOLDOWN
  }

  /** The promise that any two requests to the endpoint are more than the cooldown
      apart, made to a new request: it holds towards all earlier ones if and only if
      it holds towards those that failed. */
  lemma ApartIffFailuresApart(c: Cache, trace: seq<Attempt>, l: Lookup)
    requires Tracked(c, trace) && Asks(c, l)
    ensures (forall i :: 0 <= i < |trace| ==> Apart(trace[i], l.recheckedAt)) <==>
            (forall i :: 0 <= i < |trace| && trace[i].keys.None? ==> Apart(trace[i], l.recheckedAt))
  {
    forall i | 0 <= i < |trace| && trace[i].keys.Some? ensures Apart(trace[i], l.recheckedAt) {
      assert Covered(c, trace[i]);
    }
  }

  ghost predicate AllApart(trace: seq<Attempt>) {
    forall i, j :: 0 <= i < j < |trace| ==> Apart(trace[i], trace[j].startedAt)
  }

  ghost predicate FailuresApart(trace: seq<Attempt>) {
    forall i, j :: 0 <= i < j < |trace| && trace[i].keys.None? ==> Apart(trace[i], trace[j].startedAt)
  }

  /** The same for whole runs. */
  lemma RunApartIff(ls: seq<Lookup>, t: nat)
    requires Timely(ls, t)
    ensures
      var trace := Run(Cache(map[], 0), [], ls).1;
      AllApart(trace) <==> FailuresApart(trace)
  {
    FetchesSpaced(ls, t);
  }

  function Failing(at: int, n: nat): seq<Lookup> {
    if n == 0 then [] else [Lookup("k", at, at, Failed, at)] + Failing(at, n - 1)
  }

  lemma {:induction false} FailingAsks(at: int, n: nat, trace: seq<Attempt>)
    ensures
      var (c, trace') := Run(Cache(map[], 0), trace, Failing(at, n));
      c == Cache(map[], 0) && |trace'| == |trace| + n && trace <= trace' &&
      forall i :: |trace| <= i < |trace| + n ==> trace'[i] == Attempt(at, at, None)
    decreases n
  {
    if n > 0 {
      assert Failing(at, n)[1..] == Failing(at, n - 1);
      FailingAsks(at, n - 1, trace + [Attempt(at, at, None)]);
    }
  }

  lemma {:induction false} FailingTimely(at: int, n: nat)
    ensures |Failing(at, n)| == n && forall i :: 0 <= i < n ==> Failing(at, n)[i] == Lookup("k", at, at, Failed, at)
  {
    if n > 0 { FailingTimely(at, n - 1); }
  }

  /** The promise is broken: n lookups at one instant, from the empty cache and with
      the endpoint down, make n requests at that instant. */
  lemma FailuresHammer(at: nat, n: nat)
    ensures
      var trace := Run(Cache(map[], 0), [], Failing(at, n)).1;
      Timely(Failing(at, n), at) && |trace| == n && (forall i :: 0 <= i < n ==> trace[i].startedAt == at) &&
      (AllApart(trace) <==> n <= 1)
  {
    FailingTimely(at, n);
    FailingAsks(at, n, []);
    var trace := Run(Cache(map[], 0), [], Failing(at, n)).1;
    if n > 1 { assert !Apart(trace[0], trace[1].startedAt); }
  }

  /** Exactly when the endpoint is asked: on a miss, unless a success lies
      within the cooldown. Failed attempts play no part. */
  lemma AsksIff(c: Cache, trace: seq<Attempt>, l: Lookup)
    requires Tracked(c, trace)
    ensures Asks(c, l) <==>
      !Hit(c, l) &&
      ((forall i :: 0 <= i < |trace| ==> trace[i].keys.None?) ||
       l.recheckedAt - Latest(trace).fetchedAt > REFETCH_COOLDOWN)
  {
    if forall i :: 0 <= i < |trace| ==> trace[i].keys.None? {
      LatestOfFailures(trace);
    } else {
      var i :| 0 <= i < |trace| && trace[i].keys.Some?;
      assert Covered(c, trace[i]);
    }
  }

  lemma {:induction false} LatestOfFailures(trace: seq<Attempt>)
    requires forall i :: 0 <= i < |trace| ==> trace[i].keys.None?
    ensures Latest(trace) == Cache(map[], 0)
  {
    if trace != [] { LatestOfFailures(trace[..|trace| - 1]); }
  }
}
