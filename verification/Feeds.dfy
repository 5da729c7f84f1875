/** The feed blocklist and the shortener list: label walks over a hostname, and
    feeds that keep their last good data. */
module Feeds {
  import opened Common

  datatype Category = Phishing | Malware | Abuse

  datatype Verdict = Allowed | Flagged(category: Category)

  // ------------------------------------------------------------- label walks

  /** The suffix of host from position i starts at a label boundary. */
  predicate Boundary(host: string, i: nat)
    requires i <= |host|
  {
    i == 0 || host[i - 1] == '.'
  }

  /** The host itself or a parent domain of it is in the list. */
  ghost predicate Listed(host: string, list: set<string>) {
    exists i :: 0 <= i < |host| && Boundary(host, i) && host[i..] in list
  }

  /** hostOnList: the feed blocklist's walk, which stops at the empty string. */
  method HostOnList(host: string, list: set<string>) returns (found: bool)
    ensures found <==> Listed(host, list)
  {
    var rest, at := host, 0;
    while rest != ""
      invariant at <= |host| && rest == host[at..] && Boundary(host, at)
      invariant forall i :: 0 <= i < at && Boundary(host, i) ==> host[i..] !in list
      decreases |rest|
    {
      if rest in list { return true; }
      var dot := IndexOf(rest, '.');
      if dot < 0 {
        return false;
      }
      at := at + dot + 1;
      rest := rest[dot + 1..];
    }
    return false;
  }

  /** isShortener: the syntactic guard's walk, which also looks up the empty
      string when the host ends in a dot. */
  method IsShortener(host: string, list: set<string>) returns (found: bool)
    ensures "" !in list ==> (found <==> Listed(host, list))
    ensures found <==> exists i :: 0 <= i <= |host| && Boundary(host, i) && host[i..] in list
  {
    var rest, at := host, 0;
    while true
      invariant at <= |host| && rest == host[at..] && Boundary(host, at)
      invariant forall i :: 0 <= i < at && Boundary(host, i) ==> host[i..] !in list
      decreases |rest|
    {
      if rest in list { return true; }
      var dot := IndexOf(rest, '.');
      if dot < 0 {
        return false;
      }
      at := at + dot + 1;
      rest := rest[dot + 1..];
    }
  }

  const BUILTIN_SHORTENERS: seq<string> := [
    "bit.ly", "tinyurl.com", "t.co", "goo.gl", "is.gd", "buff.ly", "ow.ly",
    "rebrand.ly", "cutt.ly", "shorturl.at", "rb.gy", "tiny.cc", "v.gd", "s.id"
  ]

  function Normalized(words: seq<string>): set<string> {
    set w | w in words && Lower(TrimSpace(w)) != "" :: Lower(TrimSpace(w))
  }

  /** NewSyntactic's set: the built-in hosts and the non-blank configured ones.
      It never holds the empty string, so both walks agree on it. */
  method Shorteners(extra: seq<string>) returns (list: set<string>)
    ensures list == (set d | d in BUILTIN_SHORTENERS) + Normalized(extra)
    ensures "" !in list
  {
    list := Together(BUILTIN_SHORTENERS, extra);
  }

  method Together(builtin: seq<string>, extra: seq<string>) returns (list: set<string>)
    requires "" !in builtin
    ensures list == (set d | d in builtin) + Normalized(extra)
    ensures "" !in list
  {
    list := {};
    for i := 0 to |builtin|
      invariant list == set d | d in builtin[..i]
    {
      list := list + {builtin[i]};
    }
    assert builtin[..|builtin|] == builtin;
    ghost var hosts := list;
    for i := 0 to |extra|
      invariant list == hosts + Normalized(extra[..i])
    {
      assert extra[..i + 1] == extra[..i] + [extra[i]];
      var d := Lower(TrimSpace(extra[i]));
      if d != "" {
        list := list + {d};
      }
    }
    assert extra[..|extra|] == extra;
  }

  // ------------------------------------------------------------------- feeds

  datatype FeedData = FeedData(hosts: set<string>, exact: set<string>)

  /** A feed line: a comment, an exact URL (None when it does not parse) or a host. */
  datatype Line = Skipped | Exact(url: Option<string>) | Host(name: string)

  /** URL parsing: the hostname of a URL text (None when it does not parse), and
      the exact-match form of a trimmed one (None when it has none). */
  datatype UrlReader = UrlReader(hostname: string -> Option<string>, exact: string -> Option<string>)

  /** normalizeExactURL. */
  function ExactOf(u: UrlReader, raw: string): Option<string> {
    u.exact(TrimSpace(raw))
  }

  predicate HostShaped(host: string) {
    host != "" && forall c | c in host :: c !in " /:?#@"
  }

  function Classify(u: UrlReader, line: string): Line {
    var line := TrimSpace(line);
    if line == "" || "#" <= line || "//" <= line then Skipped
    else if Contains(line, "://") then Exact(ExactOf(u, line))
    else
      var host := Lower(TrimSuffix(line, "."));
      if HostShaped(host) then Host(host) else Skipped
  }

  /** What a line stands for: nothing when it is blank or a comment; a URL when it has a
      scheme; else a host, lower-cased and without the final dot, if it looks like one. */
  lemma LineStandsFor(u: UrlReader, line: string)
    ensures
      var text := TrimSpace(line);
      var comment := text == "" || text[0] == '#' || (|text| >= 2 && text[0] == '/' && text[1] == '/');
      var url := Mentions(text, "://");
      var host := Lower(if text != "" && text[|text| - 1] == '.' then text[..|text| - 1] else text);
      (comment ==> Classify(u, line) == Skipped) &&
      (!comment && url ==> Classify(u, line) == Exact(u.exact(TrimSpace(text)))) &&
      (!comment && !url ==> Classify(u, line) == if HostShaped(host) then Host(host) else Skipped)
  {
    var text := TrimSpace(line);
    ContainsIff(text, "://");
    StartsWith(text, "#", "//");
    EndsInDot(text, ".");
  }

  lemma StartsWith(text: string, hash: string, slashes: string)
    requires hash == "#" && slashes == "//"
    ensures hash <= text <==> text != "" && text[0] == '#'
    ensures slashes <= text <==> |text| >= 2 && text[0] == '/' && text[1] == '/'
  {
  }

  lemma EndsInDot(text: string, dot: string)
    requires dot == "."
    ensures TrimSuffix(text, dot) == if text != "" && text[|text| - 1] == '.' then text[..|text| - 1] else text
  {
  }

  /** What a feed document lists. */
  function Parsed(u: UrlReader, lines: seq<string>): FeedData {
    FeedData(
      set l | l in lines && Classify(u, l).Host? :: Classify(u, l).name,
      set l | l in lines && Classify(u, l).Exact? && Classify(u, l).url.Some? :: Classify(u, l).url.value)
  }

  method ParseFeed(u: UrlReader, lines: seq<string>) returns (data: FeedData)
    ensures data == Parsed(u, lines)
    ensures "" !in data.hosts
  {
    data := FeedData({}, {});
    for i := 0 to |lines|
      invariant data == Parsed(u, lines[..i])
      invariant "" !in data.hosts
    {
      assert lines[..i + 1] == lines[..i] + [lines[i]];
      match Classify(u, lines[i]) {
        case Skipped =>
        case Exact(None) =>
        case Exact(Some(url)) => data := data.(exact := data.exact + {url});
        case Host(name) => data := data.(hosts := data.hosts + {name});
      }
      assert data == Parsed(u, lines[..i + 1]);
    }
    assert lines[..|lines|] == lines;
  }

  function FeedCategory(feedURL: string): Category {
    var lower := Lower(feedURL);
    if Contains(lower, "phish") then Phishing
    else if Contains(lower, "urlhaus") || Contains(lower, "malware") then Malware
    else Abuse
  }

  /** A feed whose URL mentions phishing is a phishing feed, one that names URLhaus or
      malware a malware feed, and every other one an abuse feed. */
  lemma CategoryByName(feedURL: string)
    ensures FeedCategory(feedURL) == Phishing <==> Mentions(Lower(feedURL), "phish")
    ensures FeedCategory(feedURL) == Malware <==>
            !Mentions(Lower(feedURL), "phish") &&
            (Mentions(Lower(feedURL), "urlhaus") || Mentions(Lower(feedURL), "malware"))
  {
    ContainsIff(Lower(feedURL), "phish");
    ContainsIff(Lower(feedURL), "urlhaus");
    ContainsIff(Lower(feedURL), "malware");
  }

  /** A scanned URL: its host, and its exact-match form ("" when it has none). */
  datatype Target = Target(host: string, exact: string)

  /** What Scan reads off a URL; None when it does not parse. */
  function TargetOf(u: UrlReader, raw: string): Option<Target> {
    match u.hostname(raw)
    case None => None
    case Some(name) =>
      Some(Target(TrimSuffix(Lower(name), "."), if ExactOf(u, raw).Some? then ExactOf(u, raw).value else ""))
  }

  /** What is compared of a scanned URL: its host, lower-cased and without a final dot,
      and the exact form of its trimmed text, if it has one. */
  lemma TargetRead(u: UrlReader, raw: string, name: string)
    requires u.hostname(raw) == Some(name)
    ensures
      var t, lower := TargetOf(u, raw), Lower(name);
      t.Some? &&
      t.value.host == (if lower != "" && lower[|lower| - 1] == '.' then lower[..|lower| - 1] else lower) &&
      (u.exact(TrimSpace(raw)) == None ==> t.value.exact == "") &&
      (u.exact(TrimSpace(raw)) != None ==> Some(t.value.exact) == u.exact(TrimSpace(raw)))
  {
    EndsInDot(Lower(name), ".");
  }

  ghost predicate Lists(data: FeedData, t: Target) {
    Listed(t.host, data.hosts) || (t.exact != "" && t.exact in data.exact)
  }

  /** The verdict when the feeds are visited in the given order. */
  ghost function Verdicts(feeds: map<string, FeedData>, order: seq<string>, t: Target): Verdict
    requires forall f :: f in order ==> f in feeds
  {
    if order == [] then Allowed
    else if Lists(feeds[order[0]], t) then Flagged(FeedCategory(order[0]))
    else Verdicts(feeds, order[1..], t)
  }

  /** Scan's verdict: a URL that does not parse is left to the other layers. */
  ghost function ScanVerdict(u: UrlReader, feeds: map<string, FeedData>, order: seq<string>, raw: string): Verdict
    requires forall f :: f in order ==> f in feeds
  {
    match TargetOf(u, raw)
    case None => Allowed
    case Some(t) => Verdicts(feeds, order, t)
  }

  /** An order in which a map iteration may visit the feeds: each once. */
  ghost predicate Enumerates(order: seq<string>, feeds: map<string, FeedData>) {
    (forall f :: f in order <==> f in feeds) && forall i, j :: 0 <= i < j < |order| ==> order[i] != order[j]
  }

  /** Whatever order the map iteration takes, a URL is flagged iff some feed
      lists it, and then with the category of such a feed. */
  lemma {:induction false} FlaggedIffListed(feeds: map<string, FeedData>, order: seq<string>, t: Target)
    requires forall f :: f in order ==> f in feeds
    ensures
      var v := Verdicts(feeds, order, t);
      (v.Flagged? <==> exists f :: f in order && Lists(feeds[f], t)) &&
      (v.Flagged? ==> exists f :: f in order && Lists(feeds[f], t) && v.category == FeedCategory(f))
  {
    if order != [] && !Lists(feeds[order[0]], t) {
      FlaggedIffListed(feeds, order[1..], t);
      assert forall f :: f in order <==> f == order[0] || f in order[1..];
    } else if order != [] {
      assert order[0] in order;
    }
  }

  /** Every set of feeds has an iteration order. */
  lemma {:induction false} SomeOrder(feeds: map<string, FeedData>) returns (order: seq<string>)
    ensures Enumerates(order, feeds)
    decreases |feeds|
  {
    order := [];
    if feeds != map[] {
      var f :| f in feeds;
      var rest := SomeOrder(feeds - {f});
      order := [f] + rest;
      assert forall g :: g in order <==> g == f || g in rest;
    }
  }

  /** And one that begins with a given feed. */
  lemma OrderFrom(feeds: map<string, FeedData>, first: string) returns (order: seq<string>)
    requires first in feeds
    ensures Enumerates(order, feeds) && order[..1] == [first]
  {
    var rest := SomeOrder(feeds - {first});
    order := [first] + rest;
    assert forall g :: g in order <==> g == first || g in rest;
  }

  /** No iteration order changes the verdict. */
  ghost predicate OrderFree(feeds: map<string, FeedData>, t: Target) {
    forall one, other | Enumerates(one, feeds) && Enumerates(other, feeds) ::
      Verdicts(feeds, one, t) == Verdicts(feeds, other, t)
  }

  /** All feeds that list the URL have one category. */
  ghost predicate OneCategory(feeds: map<string, FeedData>, t: Target) {
    forall a, b | a in feeds && b in feeds && Lists(feeds[a], t) && Lists(feeds[b], t) ::
      FeedCategory(a) == FeedCategory(b)
  }

  /** Whether a URL is flagged never depends on the iteration order. Its category
      does not either if and only if all feeds that list it have one category. */
  lemma OrderFreeIff(feeds: map<string, FeedData>, t: Target)
    ensures forall one, other :: Enumerates(one, feeds) && Enumerates(other, feeds) ==>
      (Verdicts(feeds, one, t).Flagged? <==> Verdicts(feeds, other, t).Flagged?)
    ensures OrderFree(feeds, t) <==> OneCategory(feeds, t)
  {
    forall one, other | Enumerates(one, feeds) && Enumerates(other, feeds)
      ensures Verdicts(feeds, one, t).Flagged? <==> Verdicts(feeds, other, t).Flagged?
      ensures OneCategory(feeds, t) ==> Verdicts(feeds, one, t) == Verdicts(feeds, other, t)
    {
      FlaggedIffListed(feeds, one, t);
      FlaggedIffListed(feeds, other, t);
    }
    if OrderFree(feeds, t) {
      forall a, b | a in feeds && b in feeds && Lists(feeds[a], t) && Lists(feeds[b], t)
        ensures FeedCategory(a) == FeedCategory(b)
      {
        var fromA := OrderFrom(feeds, a);
        var fromB := OrderFrom(feeds, b);
        assert fromA[..1][0] == a && fromB[..1][0] == b;
        assert Verdicts(feeds, fromA, t) == Verdicts(feeds, fromB, t);
      }
    }
  }

  class FeedList {
    const feedURLs: seq<string>
    var feeds: map<string, FeedData>

    constructor (feedURLs: seq<string>)
      ensures this.feedURLs == feedURLs && feeds == map[]
    {
      this.feedURLs := feedURLs;
      feeds := map[];
    }

    /** One refresh; answers[i] is what fetching the i-th feed brings, None for
        a failed fetch. */
    method Refresh(answers: seq<Option<FeedData>>)
      requires |answers| == |feedURLs|
      modifies this
      ensures feeds == Refreshed(old(feeds), Attempts(feedURLs, answers))
    {
      assert Attempts(feedURLs, answers)[..|feedURLs|] == Attempts(feedURLs, answers);
      for i := 0 to |feedURLs|
        invariant feeds == Refreshed(old(feeds), Attempts(feedURLs, answers)[..i])
      {
        assert Attempts(feedURLs, answers)[..i + 1][..i] == Attempts(feedURLs, answers)[..i];
        if answers[i].Some? {
          feeds := feeds[feedURLs[i] := answers[i].value];
        }
      }
    }

    /** The scan of one URL; order is the order of the map iteration. */
    method Scan(u: UrlReader, raw: string, order: seq<string>) returns (v: Verdict)
      requires Enumerates(order, feeds)
      ensures v == ScanVerdict(u, feeds, order, raw)
      ensures v.Flagged? <==>
              TargetOf(u, raw).Some? && exists f :: f in feeds && Lists(feeds[f], TargetOf(u, raw).value)
    {
      if u.hostname(raw).None? { return Allowed; }
      var t := TargetOf(u, raw).value;
      FlaggedIffListed(feeds, order, t);
      v := Visit(t, order);
    }

    /** Scan's loop over the feeds. */
    method Visit(t: Target, order: seq<string>) returns (v: Verdict)
      requires forall f :: f in order ==> f in feeds
      ensures v == Verdicts(feeds, order, t)
    {
      assert order[0..] == order;
      for i := 0 to |order|
        invariant Verdicts(feeds, order, t) == Verdicts(feeds, order[i..], t)
      {
        assert order[i] in order;
        var data := feeds[order[i]];
        assert order[i..][1..] == order[i + 1..];
        var onList := HostOnList(t.host, data.hosts);
        if onList { return Flagged(FeedCategory(order[i])); }
        if t.exact != "" && t.exact in data.exact {
          return Flagged(FeedCategory(order[i]));
        }
      }
      return Allowed;
    }
  }

  /** One fetch of one feed. */
  datatype Attempt = Attempt(feedURL: string, answer: Option<FeedData>)

  function Attempts(feedURLs: seq<string>, answers: seq<Option<FeedData>>): (r: seq<Attempt>)
    requires |answers| == |feedURLs|
    ensures |r| == |feedURLs|
  {
    seq(|feedURLs|, i requires 0 <= i < |feedURLs| => Attempt(feedURLs[i], answers[i]))
  }

  function Refreshed(feeds: map<string, FeedData>, attempts: seq<Attempt>): map<string, FeedData> {
    if attempts == [] then feeds
    else
      var last := attempts[|attempts| - 1];
      var before := Refreshed(feeds, attempts[..|attempts| - 1]);
      if last.answer.Some? then before[last.feedURL := last.answer.value] else before
  }

  /** All fetches of a run of refreshes, oldest first. */
  function AllAttempts(feedURLs: seq<string>, rounds: seq<seq<Option<FeedData>>>): seq<Attempt>
    requires forall r :: r in rounds ==> |r| == |feedURLs|
  {
    if rounds == [] then []
    else
      var last := rounds[|rounds| - 1];
      assert last in rounds;
      AllAttempts(feedURLs, rounds[..|rounds| - 1]) + Attempts(feedURLs, last)
  }

  /** The data of a feed's latest successful fetch. */
  ghost function LatestGood(attempts: seq<Attempt>, feedURL: string): Option<FeedData> {
    if attempts == [] then None
    else
      var last := attempts[|attempts| - 1];
      if last.feedURL == feedURL && last.answer.Some? then last.answer
      else LatestGood(attempts[..|attempts| - 1], feedURL)
  }

  function RunRefreshes(feeds: map<string, FeedData>, feedURLs: seq<string>,
                        rounds: seq<seq<Option<FeedData>>>): map<string, FeedData>
    requires forall r :: r in rounds ==> |r| == |feedURLs|
  {
    if rounds == [] then feeds
    else
      var last := rounds[|rounds| - 1];
      assert last in rounds;
      Refreshed(RunRefreshes(feeds, feedURLs, rounds[..|rounds| - 1]), Attempts(feedURLs, last))
  }

  lemma {:induction false} RefreshedTwice(feeds: map<string, FeedData>, a: seq<Attempt>, b: seq<Attempt>)
    ensures Refreshed(Refreshed(feeds, a), b) == Refreshed(feeds, a + b)
  {
    if b == [] {
      assert a + b == a;
    } else {
      assert (a + b)[..|a + b| - 1] == a + b[..|b| - 1];
      RefreshedTwice(feeds, a, b[..|b| - 1]);
    }
  }

  lemma {:induction false} RunIsOneRefresh(feedURLs: seq<string>, rounds: seq<seq<Option<FeedData>>>)
    requires forall r :: r in rounds ==> |r| == |feedURLs|
    ensures RunRefreshes(map[], feedURLs, rounds) == Refreshed(map[], AllAttempts(feedURLs, rounds))
  {
    if rounds != [] {
      var last := rounds[|rounds| - 1];
      assert last in rounds;
      RunIsOneRefresh(feedURLs, rounds[..|rounds| - 1]);
      RefreshedTwice(map[], AllAttempts(feedURLs, rounds[..|rounds| - 1]), Attempts(feedURLs, last));
    }
  }

  lemma {:induction false} RefreshedHoldsLatest(attempts: seq<Attempt>, feedURL: string)
    ensures
      var feeds := Refreshed(map[], attempts);
      LatestGood(attempts, feedURL) == if feedURL in feeds then Some(feeds[feedURL]) else None
  {
    if attempts != [] { RefreshedHoldsLatest(attempts[..|attempts| - 1], feedURL); }
  }

  /** Over every run of refreshes with any failures: each feed holds its latest
      successful fetch, and a URL is flagged iff the latest successful fetch of
      some feed lists it. */
  lemma LastGoodData(feedURLs: seq<string>, rounds: seq<seq<Option<FeedData>>>, order: seq<string>, t: Target)
    requires forall r :: r in rounds ==> |r| == |feedURLs|
    requires Enumerates(order, RunRefreshes(map[], feedURLs, rounds))
    ensures
      var feeds, attempts := RunRefreshes(map[], feedURLs, rounds), AllAttempts(feedURLs, rounds);
      (forall f :: LatestGood(attempts, f) == if f in feeds then Some(feeds[f]) else None) &&
      (Verdicts(feeds, order, t).Flagged? <==>
       exists f :: LatestGood(attempts, f).Some? && Lists(LatestGood(attempts, f).value, t))
  {
    var feeds, attempts := RunRefreshes(map[], feedURLs, rounds), AllAttempts(feedURLs, rounds);
    RunIsOneRefresh(feedURLs, rounds);
    forall f ensures LatestGood(attempts, f) == if f in feeds then Some(feeds[f]) else None {
      RefreshedHoldsLatest(attempts, f);
    }
    FlaggedIffListed(feeds, order, t);
  }

  /** A line that is an exact-URL entry. */
  predicate UrlLine(line: string) {
    var text := TrimSpace(line);
    text != "" && !("#" <= text) && !("//" <= text) && Contains(text, "://")
  }

  /** End to end: once a feed's latest successful fetch was a document with a URL
      on a line of its own, scanning that URL, or any with the same exact form, flags
      it, whatever else was fetched or failed and in whatever order feeds are read. */
  lemma PrintedIsFlagged(u: UrlReader, feedURLs: seq<string>, rounds: seq<seq<Option<FeedData>>>, order: seq<string>,
                         feedURL: string, document: seq<string>, line: string, raw: string)
    requires forall r :: r in rounds ==> |r| == |feedURLs|
    requires Enumerates(order, RunRefreshes(map[], feedURLs, rounds))
    requires LatestGood(AllAttempts(feedURLs, rounds), feedURL) == Some(Parsed(u, document))
    requires line in document && UrlLine(line) && u.hostname(raw).Some?
    requires ExactOf(u, raw).Some? && ExactOf(u, raw).value != "" && ExactOf(u, raw) == ExactOf(u, TrimSpace(line))
    ensures ScanVerdict(u, RunRefreshes(map[], feedURLs, rounds), order, raw).Flagged?
  {
    var t := TargetOf(u, raw).value;
    LastGoodData(feedURLs, rounds, order, t);
    assert Classify(u, line) == Exact(ExactOf(u, TrimSpace(line)));
    assert t.exact in Parsed(u, document).exact;
    assert Lists(Parsed(u, document), t);
  }

  lemma BelowIsListed(host: string, name: string, list: set<string>)
    requires name in list && name != "" && (host == name || HasSuffix(host, "." + name))
    ensures Listed(host, list)
  {
    var i := |host| - |name|;
    if host != name {
      assert host[i - 1..] == "." + name;
      assert host[i..] == ("." + name)[1..] == name;
      assert host[i - 1] == ("." + name)[0];
    } else {
      assert host[0..] == host;
    }
    assert Boundary(host, i) && host[i..] == name;
  }

  /** The same for a host line: the host and everything below it are flagged. */
  lemma PrintedHostIsFlagged(u: UrlReader, feedURLs: seq<string>, rounds: seq<seq<Option<FeedData>>>,
                             order: seq<string>, feedURL: string, document: seq<string>, line: string, raw: string)
    requires forall r :: r in rounds ==> |r| == |feedURLs|
    requires Enumerates(order, RunRefreshes(map[], feedURLs, rounds))
    requires LatestGood(AllAttempts(feedURLs, rounds), feedURL) == Some(Parsed(u, document))
    requires line in document && Classify(u, line).Host? && TargetOf(u, raw).Some?
    requires
      var host, name := TargetOf(u, raw).value.host, Classify(u, line).name;
      host == name || HasSuffix(host, "." + name)
    ensures ScanVerdict(u, RunRefreshes(map[], feedURLs, rounds), order, raw).Flagged?
  {
    var t, name := TargetOf(u, raw).value, Classify(u, line).name;
    LastGoodData(feedURLs, rounds, order, t);
    assert name in Parsed(u, document).hosts;
    BelowIsListed(t.host, name, Parsed(u, document).hosts);
    assert Lists(Parsed(u, document), t);
  }
}
