/** The periodic re-scan: a bounded id-cursor walk over recently clicked active
    links whose own writes remove rows from the query it pages through. */
module Rescan {
  import opened Tables

  const BATCH_SIZE := 100
  const MAX_LINKS := 10000

  datatype Verdict = Clean | Flagged | ScanError

  /** The work queue's WHERE clause. */
  predicate Matches(links: map<int, Link>, since: int, id: int) {
    id in links && links[id].status == Active && links[id].lastVisitAt.Some? && links[id].lastVisitAt.value >= since
  }

  /** The matching ids of [lo, hi) in id order. */
  function Matching(links: map<int, Link>, since: int, lo: int, hi: int): seq<int>
    decreases hi - lo
  {
    if hi <= lo then []
    else Matching(links, since, lo, hi - 1) + (if Matches(links, since, hi - 1) then [hi - 1] else [])
  }

  function FirstOf(ids: seq<int>, n: nat): seq<int> {
    if n <= |ids| then ids[..n] else ids
  }

  /** The matching ids are exactly those, each once and in increasing order. */
  lemma {:induction false} MatchingExact(links: map<int, Link>, since: int, lo: int, hi: int)
    ensures forall id :: id in Matching(links, since, lo, hi) <==> lo <= id < hi && Matches(links, since, id)
    ensures forall i, j :: 0 <= i < j < |Matching(links, since, lo, hi)| ==>
      Matching(links, since, lo, hi)[i] < Matching(links, since, lo, hi)[j]
    decreases hi - lo
  {
    if lo < hi {
      MatchingExact(links, since, lo, hi - 1);
      var init := Matching(links, since, lo, hi - 1);
      assert forall i :: 0 <= i < |init| ==> init[i] in init;
    }
  }

  lemma {:induction false} MatchingSplit(links: map<int, Link>, since: int, lo: int, mid: int, hi: int)
    requires lo <= mid <= hi
    ensures Matching(links, since, lo, hi) == Matching(links, since, lo, mid) + Matching(links, since, mid, hi)
    decreases hi - mid
  {
    if mid < hi { MatchingSplit(links, since, lo, mid, hi - 1); }
  }

  /** Rows at or after the cursor decide the rest of the walk. */
  lemma {:induction false} MatchingSame(a: map<int, Link>, b: map<int, Link>, since: int, lo: int, hi: int)
    requires forall id :: lo <= id < hi ==> (Matches(a, since, id) <==> Matches(b, since, id))
    ensures Matching(a, since, lo, hi) == Matching(b, since, lo, hi)
    decreases hi - lo
  {
    if lo < hi { MatchingSame(a, b, since, lo, hi - 1); }
  }

  lemma NoneBefore(links: map<int, Link>, since: int, lo: int, hi: int)
    requires Matching(links, since, lo, hi) != []
    ensures
      var first := Matching(links, since, lo, hi)[0];
      lo <= first < hi && Matches(links, since, first) && Matching(links, since, lo, first) == []
  {
    var ids := Matching(links, since, lo, hi);
    var first := ids[0];
    MatchingExact(links, since, lo, hi);
    assert first in ids;
    var before := Matching(links, since, lo, first);
    MatchingSplit(links, since, lo, first, hi);
    MatchingExact(links, since, lo, first);
    assert forall id :: id in before ==> id in ids;
    assert forall i :: 0 <= i < |ids| ==> first <= ids[i];
    assert forall id :: id in ids ==> first <= id;
    assert forall id :: id !in before;
  }

  /** Taking the next id of the walk moves the cursor behind it. */
  lemma NextId(links: map<int, Link>, since: int, lo: int, hi: int)
    requires Matching(links, since, lo, hi) != []
    ensures
      var ids := Matching(links, since, lo, hi);
      lo <= ids[0] < hi && Matches(links, since, ids[0]) && Matching(links, since, lo, ids[0] + 1) == [ids[0]] &&
      Matching(links, since, ids[0] + 1, hi) == ids[1..]
  {
    NoneBefore(links, since, lo, hi);
    MatchingSplit(links, since, lo, Matching(links, since, lo, hi)[0] + 1, hi);
  }

  /** The table after the given links were disabled. */
  function WithDisabled(links: map<int, Link>, ids: set<int>): map<int, Link> {
    map id | id in links :: if id in ids then links[id].(status := DisabledAbuse) else links[id]
  }

  /** The links of a scanned list that end up disabled by it. */
  function Hits(scanned: seq<int>, verdict: int -> Verdict, writeFails: int -> bool): set<int> {
    set id | id in scanned && verdict(id) == Flagged && !writeFails(id)
  }

  class RescanService {
    const db: Database

    constructor (db: Database)
      ensures this.db == db
    {
      this.db := db;
    }

    method ListActiveClickedSince(since: int, afterId: int, limit: nat) returns (batch: seq<int>)
      requires db.Valid() && afterId >= 0
      ensures batch == FirstOf(Matching(db.links, since, afterId + 1, db.nextLink), limit)
    {
      batch := [];
      var id := afterId + 1;
      while id < db.nextLink && |batch| < limit
        invariant afterId < id && (id <= db.nextLink || id == afterId + 1)
        invariant batch == Matching(db.links, since, afterId + 1, id) && |batch| <= limit
        decreases db.nextLink - id
      {
        if Matches(db.links, since, id) {
          batch := batch + [id];
        }
        id := id + 1;
      }
      if id <= db.nextLink {
        MatchingSplit(db.links, since, afterId + 1, id, db.nextLink);
      }
    }

    method DisableIfFlagged(id: int, verdict: int -> Verdict, writeFails: int -> bool) returns (disabled: bool)
      requires db.Valid() && id in db.links
      modifies db
      ensures db.Valid() && disabled == (verdict(id) == Flagged && !writeFails(id))
      ensures db.links == WithDisabled(old(db.links), if disabled then {id} else {})
      ensures db.nextLink == old(db.nextLink) && db.prefixes == old(db.prefixes) && db.domains == old(db.domains)
      ensures db.clicks == old(db.clicks)
    {
      if verdict(id) != Flagged || writeFails(id) { return false; }
      var _ := db.Run(SetStatus(id, DisabledAbuse));
      return true;
    }

    /** The inner loop of a run: one page, cut short by the cap. */
    method ScanBatch(batch: seq<int>, ghost start: map<int, Link>, since: int, verdict: int -> Verdict,
                     writeFails: int -> bool, scanned0: seq<int>, disabled0: nat, afterId0: int)
      returns (scanned: seq<int>, disabled: nat, afterId: int)
      requires db.Valid() && batch != [] && |scanned0| < MAX_LINKS
      requires Progress(start, db.nextLink, since, scanned0, afterId0, Hits(scanned0, verdict, writeFails), db.links,
                        disabled0)
      requires batch <= Matching(start, since, afterId0 + 1, db.nextLink)
      modifies db
      ensures db.Valid() && db.nextLink == old(db.nextLink)
      ensures Progress(start, db.nextLink, since, scanned, afterId, Hits(scanned, verdict, writeFails), db.links,
                       disabled)
      ensures |scanned0| < |scanned| <= MAX_LINKS
    {
      scanned, disabled, afterId := scanned0, disabled0, afterId0;
      ghost var next := db.nextLink;
      for i := 0 to |batch|
        invariant db.Valid() && db.nextLink == next && |scanned| == |scanned0| + i < MAX_LINKS
        invariant batch[i..] <= Matching(start, since, afterId + 1, next)
        invariant Progress(start, next, since, scanned, afterId, Hits(scanned, verdict, writeFails), db.links, disabled)
      {
        var id := batch[i];
        ScanStep(start, next, since, scanned, afterId, verdict, writeFails, db.links, disabled, id);
        afterId := id;
        scanned := scanned + [id];
        var hit := DisableIfFlagged(id, verdict, writeFails);
        if hit { disabled := disabled + 1; }
        assert batch[i..][1..] == batch[i + 1..];
        if |scanned| >= MAX_LINKS { return; }
      }
    }

    /** One run. The scanner's verdict and a failing status write are given per
        link, a failing listing per batch; nothing else writes meanwhile.
        `scanned` lists the links in the order they are scanned. */
    method Run(since: int, verdict: int -> Verdict, writeFails: int -> bool, listFails: nat -> bool)
      returns (scanned: seq<int>, disabled: nat, aborted: bool)
      requires db.Valid()
      modifies db
      ensures db.Valid() && db.nextLink == old(db.nextLink)
      ensures scanned <= Matching(old(db.links), since, 1, db.nextLink) && |scanned| <= MAX_LINKS
      ensures !aborted ==> scanned == FirstOf(Matching(old(db.links), since, 1, db.nextLink), MAX_LINKS)
      ensures db.links == WithDisabled(old(db.links), Hits(scanned, verdict, writeFails))
      ensures disabled == |Hits(scanned, verdict, writeFails)|
      ensures (forall k :: !listFails(k)) ==> !aborted
    {
      ghost var start, next := db.links, db.nextLink;
      var afterId, batches := 0, 0;
      scanned, disabled, aborted := [], 0, false;
      while |scanned| < MAX_LINKS
        invariant db.Valid() && db.nextLink == next && |scanned| <= MAX_LINKS && !aborted
        invariant Progress(start, next, since, scanned, afterId, Hits(scanned, verdict, writeFails), db.links, disabled)
        decreases MAX_LINKS - |scanned|
      {
        WalkPrefix(start, since, next, scanned, afterId);
        if listFails(batches) {
          aborted := true;
          return;
        }
        batches := batches + 1;
        var batch := ListActiveClickedSince(since, afterId, BATCH_SIZE);
        QueueUnchanged(start, db.links, since, next, scanned, afterId, Hits(scanned, verdict, writeFails));
        if batch == [] { break; }
        scanned, disabled, afterId := ScanBatch(batch, start, since, verdict, writeFails, scanned, disabled, afterId);
      }
      WalkPrefix(start, since, next, scanned, afterId);
    }
  }

  /** The state of a run against the table it started from. */
  ghost predicate Progress(start: map<int, Link>, next: int, since: int, scanned: seq<int>, afterId: int,
                           hits: set<int>, links: map<int, Link>, disabled: nat) {
    Walk(start, since, next, scanned, afterId) && 1 <= next &&
    links == WithDisabled(start, hits) && disabled == |hits|
  }

  /** Scanning the next link of the walk keeps the progress. */
  lemma ScanStep(start: map<int, Link>, next: int, since: int, scanned: seq<int>, afterId: int, verdict: int -> Verdict,
                 writeFails: int -> bool, links: map<int, Link>, disabled: nat, id: int)
    requires Progress(start, next, since, scanned, afterId, Hits(scanned, verdict, writeFails), links, disabled)
    requires Matching(start, since, afterId + 1, next) != [] && Matching(start, since, afterId + 1, next)[0] == id
    ensures
      var hit := verdict(id) == Flagged && !writeFails(id);
      Progress(start, next, since, scanned + [id], id, Hits(scanned + [id], verdict, writeFails),
               WithDisabled(links, if hit then {id} else {}), if hit then disabled + 1 else disabled)
    ensures id in links && Matching(start, since, id + 1, next) == Matching(start, since, afterId + 1, next)[1..]
  {
    NextScan(start, since, next, scanned, afterId, id);
    HitsAppend(scanned, id, verdict, writeFails);
    DisabledTwice(start, Hits(scanned, verdict, writeFails), id);
    assert Hits(scanned, verdict, writeFails) + {} == Hits(scanned, verdict, writeFails);
  }

  lemma DisabledTwice(start: map<int, Link>, hits: set<int>, id: int)
    ensures WithDisabled(WithDisabled(start, hits), {id}) == WithDisabled(start, hits + {id})
    ensures WithDisabled(WithDisabled(start, hits), {}) == WithDisabled(start, hits)
  {
  }

  /** Everything up to the cursor that matched at the start has been scanned. */
  ghost predicate Walk(links0: map<int, Link>, since: int, next: int, scanned: seq<int>, afterId: int) {
    0 <= afterId && (afterId < next || afterId == 0) && scanned == Matching(links0, since, 1, afterId + 1)
  }

  lemma WalkPrefix(links0: map<int, Link>, since: int, next: int, scanned: seq<int>, afterId: int)
    requires Walk(links0, since, next, scanned, afterId) && 1 <= next
    ensures Matching(links0, since, 1, next) == scanned + Matching(links0, since, afterId + 1, next)
  {
    MatchingSplit(links0, since, 1, afterId + 1, next);
  }

  lemma QueueUnchanged(links0: map<int, Link>, links: map<int, Link>, since: int, next: int, scanned: seq<int>,
                       afterId: int, hits: set<int>)
    requires Walk(links0, since, next, scanned, afterId) && links == WithDisabled(links0, hits)
    requires forall id :: id in hits ==> id in scanned
    ensures Matching(links, since, afterId + 1, next) == Matching(links0, since, afterId + 1, next)
  {
    MatchingExact(links0, since, 1, afterId + 1);
    MatchingSame(links, links0, since, afterId + 1, next);
  }

  lemma NextScan(links0: map<int, Link>, since: int, next: int, scanned: seq<int>, afterId: int, id: int)
    requires Walk(links0, since, next, scanned, afterId) && 1 <= next
    requires Matching(links0, since, afterId + 1, next) != [] && Matching(links0, since, afterId + 1, next)[0] == id
    ensures Walk(links0, since, next, scanned + [id], id) && id in links0 && id !in scanned
    ensures Matching(links0, since, id + 1, next) == Matching(links0, since, afterId + 1, next)[1..]
  {
    NextId(links0, since, afterId + 1, next);
    MatchingSplit(links0, since, 1, afterId + 1, id + 1);
    MatchingExact(links0, since, afterId + 1, next);
    assert id in Matching(links0, since, afterId + 1, next);
    MatchingExact(links0, since, 1, afterId + 1);
  }

  lemma HitsAppend(scanned: seq<int>, id: int, verdict: int -> Verdict, writeFails: int -> bool)
    requires id !in scanned
    ensures
      var hit := verdict(id) == Flagged && !writeFails(id);
      Hits(scanned + [id], verdict, writeFails) == Hits(scanned, verdict, writeFails) + (if hit then {id} else {}) &&
      id !in Hits(scanned, verdict, writeFails)
  {
  }

  /** The link is active and was last visited at the cutoff or later. */
  predicate Clicked(links: map<int, Link>, since: int, id: int) {
    id in links && links[id].status != DisabledAbuse &&
    match links[id].lastVisitAt { case None => false case Some(at) => since <= at }
  }

  /** What a completed run amounts to: it scans the first links of the starting
      queue, each once and in id order, as many as there are up to the cap, and a
      link ends disabled iff it already was or it was scanned, flagged and its
      write succeeded. Nothing else about any link changes. */
  lemma RunEnds(start: map<int, Link>, since: int, next: int, verdict: int -> Verdict, writeFails: int -> bool, id: int)
    requires id in start
    ensures
      var work := Matching(start, since, 1, next);
      var scanned := FirstOf(work, MAX_LINKS);
      var end := WithDisabled(start, Hits(scanned, verdict, writeFails));
      (forall i, j :: 0 <= i < j < |scanned| ==> scanned[i] < scanned[j]) &&
      (forall k :: k in work <==> 1 <= k < next && Clicked(start, since, k)) &&
      (forall k :: k in scanned ==> k in work) &&
      |scanned| == (if |work| < 10000 then |work| else 10000) &&
      (forall k :: k in work && k !in scanned ==> forall j :: 0 <= j < |scanned| ==> scanned[j] < k) &&
      end.Keys == start.Keys && end[id] == start[id].(status := end[id].status) &&
      (end[id].status == DisabledAbuse <==>
       start[id].status == DisabledAbuse || (id in scanned && verdict(id) == Flagged && !writeFails(id)))
  {
    var work := Matching(start, since, 1, next);
    var scanned := FirstOf(work, MAX_LINKS);
    MatchingExact(start, since, 1, next);
    forall k | k in work && k !in scanned ensures forall j :: 0 <= j < |scanned| ==> scanned[j] < k {
      assert forall j :: 0 <= j < |scanned| ==> scanned[j] == work[j] && scanned[j] in scanned;
      var i :| 0 <= i < |work| && work[i] == k;
    }
  }
}
