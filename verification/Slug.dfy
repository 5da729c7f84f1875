/** Org slugs: a URL-safe name derived from the org's name, and its uniqueness
    suffix. `lower` is the rune-wise lower-casing of the name. */
module Slug {
  import opened Common

  const MAX_SLUG_LEN := 80
  const MAX_SLUG_ATTEMPTS := 50

  /** The characters kept from the lowered name. */
  predicate Kept(c: char) { 'a' <= c <= 'z' || IsDigit(c) }

  predicate IsHyphen(c: char) { c == '-' }

  function Lowered(name: string, lower: char -> char): (r: string)
    ensures |r| == |name| && forall i :: 0 <= i < |name| ==> r[i] == lower(name[i])
  {
    seq(|name|, i requires 0 <= i < |name| => lower(name[i]))
  }

  /** The longest prefix of kept characters. */
  function TakeRun(s: string): (run: string)
    ensures run <= s && (forall c :: c in run ==> Kept(c))
    ensures |run| < |s| ==> !Kept(s[|run|])
  {
    if s != [] && Kept(s[0]) then [s[0]] + TakeRun(s[1..]) else []
  }

  /** The maximal runs of kept characters, in order. */
  function Runs(s: string): seq<string>
    decreases |s|
  {
    if s == [] then []
    else if !Kept(s[0]) then Runs(s[1..])
    else [TakeRun(s)] + Runs(s[|TakeRun(s)|..])
  }

  function Join(runs: seq<string>): string {
    if runs == [] then []
    else if |runs| == 1 then runs[0]
    else runs[0] + "-" + Join(runs[1..])
  }

  function SlugOf(name: string, lower: char -> char): string {
    var joined := Join(Runs(Lowered(name, lower)));
    var slug := if |joined| > MAX_SLUG_LEN then Trim(joined[..MAX_SLUG_LEN], IsHyphen) else joined;
    if slug == "" then "org" else slug
  }

  /** What the loop has built after reading s: the joined runs, and a hyphen
      once a run has been followed by something else. */
  ghost function Built(s: string): string {
    var joined := Join(Runs(s));
    if joined != [] && !Kept(s[|s| - 1]) then joined + "-" else joined
  }

  lemma {:induction false} TakeRunAppend(s: string, c: char)
    ensures TakeRun(s + [c]) ==
            if |TakeRun(s)| == |s| && Kept(c) then s + [c] else TakeRun(s)
  {
    if s == [] {
      assert s + [c] == [c] && [c][1..] == [];
    } else if Kept(s[0]) {
      var rest := s[1..];
      TakeRunAppend(rest, c);
      assert (s + [c])[0] == s[0] && (s + [c])[1..] == rest + [c];
      assert TakeRun(s + [c]) == [s[0]] + TakeRun(rest + [c]);
      if |TakeRun(rest)| == |rest| && Kept(c) { assert [s[0]] + (rest + [c]) == s + [c]; }
    }
  }

  /** The runs with one more character on the last of them. */
  function Grow(runs: seq<string>, c: char): seq<string>
    requires runs != []
  {
    runs[..|runs| - 1] + [runs[|runs| - 1] + [c]]
  }

  predicate EndsInRun(s: string) { s != [] && Kept(s[|s| - 1]) }

  /** Appending a character grows the last run, opens a new one, or does nothing. */
  ghost predicate Appended(runs: seq<string>, runs': seq<string>, c: char, inRun: bool) {
    if !Kept(c) then runs' == runs
    else if inRun then runs != [] && runs' == Grow(runs, c)
    else runs' == runs + [[c]]
  }

  lemma {:induction false} RunsAppend(s: string, c: char)
    ensures Appended(Runs(s), Runs(s + [c]), c, EndsInRun(s))
    decreases |s|
  {
    if s == [] {
      assert s + [c] == [c] && [c][1..] == [];
      if Kept(c) { assert TakeRun([c]) == [c]; }
    } else if !Kept(s[0]) {
      RunsAppend(s[1..], c);
      SkipAppend(s, c);
      if |s| > 1 { EndsInTail(s, 1); }
    } else if |TakeRun(s)| == |s| {
      RunAppend(s, c);
    } else {
      var rest := s[|TakeRun(s)|..];
      RunsAppend(rest, c);
      EndsInTail(s, |TakeRun(s)|);
      LaterAppend(s, c);
    }
  }

  lemma SkipAppend(s: string, c: char)
    requires s != [] && !Kept(s[0])
    ensures Runs(s) == Runs(s[1..]) && Runs(s + [c]) == Runs(s[1..] + [c])
  {
    assert (s + [c])[1..] == s[1..] + [c];
  }

  /** Appending behind the first run leaves that run as it is. */
  lemma LaterAppend(s: string, c: char)
    requires s != [] && Kept(s[0]) && |TakeRun(s)| < |s|
    ensures
      var rest := s[|TakeRun(s)|..];
      Runs(s) == [TakeRun(s)] + Runs(rest) && Runs(s + [c]) == [TakeRun(s)] + Runs(rest + [c])
  {
    TakeRunAppend(s, c);
    assert (s + [c])[|TakeRun(s)|..] == s[|TakeRun(s)|..] + [c];
  }

  lemma EndsInTail(s: string, n: nat)
    requires n < |s|
    ensures EndsInRun(s) <==> EndsInRun(s[n..])
  {
  }

  lemma RunAppend(s: string, c: char)
    requires s != [] && |TakeRun(s)| == |s|
    ensures EndsInRun(s) && Runs(s) == [s]
    ensures Runs(s + [c]) == if Kept(c) then [s + [c]] else [s]
  {
    var run := TakeRun(s);
    assert run == s && s[|s| - 1] in run && s[0] in run;
    assert s[|run|..] == [];
    TakeRunAppend(s, c);
    var t := s + [c];
    if Kept(c) {
      assert t[|t|..] == [];
    } else {
      assert t[|s|..] == [c] && [c][1..] == [];
    }
  }

  ghost predicate IsRun(r: string) {
    r != [] && forall i :: 0 <= i < |r| ==> Kept(r[i])
  }

  lemma {:induction false} RunsShape(s: string)
    ensures forall i :: 0 <= i < |Runs(s)| ==> IsRun(Runs(s)[i])
    decreases |s|
  {
    if s == [] {
    } else if !Kept(s[0]) {
      RunsShape(s[1..]);
    } else {
      var run := TakeRun(s);
      assert forall i :: 0 <= i < |run| ==> run[i] in run;
      RunsShape(s[|run|..]);
    }
  }

  lemma {:induction false} JoinSnoc(runs: seq<string>, r: string)
    ensures Join(runs + [r]) == if runs == [] then r else Join(runs) + "-" + r
  {
    if |runs| == 1 {
      assert (runs + [r])[1..] == [r];
    } else if |runs| > 1 {
      assert (runs + [r])[1..] == runs[1..] + [r];
      JoinSnoc(runs[1..], r);
    }
  }

  lemma JoinGrow(runs: seq<string>, c: char)
    requires runs != []
    ensures Join(Grow(runs, c)) == Join(runs) + [c]
  {
    var init, last := runs[..|runs| - 1], runs[|runs| - 1];
    assert runs == init + [last];
    JoinSnoc(init, last);
    JoinSnoc(init, last + [c]);
    if init != [] {
      assert Join(init) + "-" + (last + [c]) == Join(init) + "-" + last + [c];
    }
  }

  /** A well-formed hyphenated text: kept characters and single inner hyphens. */
  ghost predicate Hyphenated(s: string) {
    && (forall i :: 0 <= i < |s| ==> Kept(s[i]) || s[i] == '-')
    && (s != [] ==> s[0] != '-' && s[|s| - 1] != '-')
    && NoDouble(s)
  }

  ghost predicate NoDouble(s: string) {
    forall i, j :: 0 <= i < |s| && j == i + 1 && j < |s| ==> s[i] != '-' || s[j] != '-'
  }

  lemma {:induction false} JoinHyphenated(runs: seq<string>)
    requires forall i :: 0 <= i < |runs| ==> IsRun(runs[i])
    ensures Hyphenated(Join(runs))
    ensures runs != [] ==> Join(runs) != []
  {
    if |runs| > 1 {
      JoinHyphenated(runs[1..]);
    }
  }

  lemma BuiltAppend(s: string, c: char)
    ensures Built(s + [c]) ==
            if Kept(c) then Built(s) + [c]
            else if Built(s) != [] && Built(s)[|Built(s)| - 1] != '-' then Built(s) + "-"
            else Built(s)
  {
    var runs := Runs(s);
    RunsAppend(s, c);
    RunsShape(s);
    JoinHyphenated(runs);
    if Kept(c) {
      if s != [] && Kept(s[|s| - 1]) {
        JoinGrow(runs, c);
      } else {
        JoinSnoc(runs, [c]);
      }
    }
  }

  /** slugify's loop over the lowered name. */
  method Hyphenate(text: string) returns (b: string)
    ensures b == Built(text)
  {
    var lastHyphen := true;
    b := "";
    for i := 0 to |text|
      invariant b == Built(text[..i])
      invariant lastHyphen <==> b == [] || b[|b| - 1] == '-'
    {
      assert text[..i + 1] == text[..i] + [text[i]];
      BuiltAppend(text[..i], text[i]);
      if Kept(text[i]) {
        b := b + [text[i]];
        lastHyphen := false;
      } else if !lastHyphen {
        b := b + "-";
        lastHyphen := true;
      }
    }
    assert text[..|text|] == text;
  }

  method Slugify(name: string, lower: char -> char) returns (slug: string)
    ensures slug == SlugOf(name, lower)
  {
    var text := Lowered(name, lower);
    slug := Hyphenate(text);
    TrimmedBuilt(text);
    slug := Trim(slug, IsHyphen);
    if |slug| > MAX_SLUG_LEN {
      slug := Trim(slug[..MAX_SLUG_LEN], IsHyphen);
    }
    if slug == "" {
      slug := "org";
    }
  }

  lemma TrimmedBuilt(text: string)
    ensures Trim(Built(text), IsHyphen) == Join(Runs(text))
  {
    var joined := Join(Runs(text));
    RunsShape(text);
    JoinHyphenated(Runs(text));
    if Built(text) != joined {
      assert (joined + "-")[..|joined|] == joined;
      assert TrimLeft(joined + "-", IsHyphen) == joined + "-";
      assert TrimRight(joined + "-", IsHyphen) == TrimRight(joined, IsHyphen);
    }
  }

  /** Cutting a hyphenated text and trimming the cut keeps it hyphenated. */
  lemma CutHyphenated(s: string, n: nat)
    requires Hyphenated(s) && 0 < n < |s|
    ensures Hyphenated(Trim(s[..n], IsHyphen)) && 0 < |Trim(s[..n], IsHyphen)| <= n
  {
    var cut := s[..n];
    assert TrimLeft(cut, IsHyphen) == cut;
    if cut[n - 1] == '-' {
      var shorter := cut[..n - 1];
      assert shorter != [] && shorter[n - 2] == s[n - 2] && cut[n - 1] == s[n - 1];
      assert TrimRight(shorter, IsHyphen) == shorter;
      assert Trim(cut, IsHyphen) == shorter;
    } else {
      assert Trim(cut, IsHyphen) == cut;
    }
  }

  /** A slug is never empty or long, and has no edge or double hyphen. */
  lemma SlugWellFormed(name: string, lower: char -> char)
    ensures
      var slug := SlugOf(name, lower);
      0 < |slug| <= MAX_SLUG_LEN && Hyphenated(slug)
  {
    var text := Lowered(name, lower);
    RunsShape(text);
    JoinHyphenated(Runs(text));
    if |Join(Runs(text))| > MAX_SLUG_LEN {
      CutHyphenated(Join(Runs(text)), MAX_SLUG_LEN);
    }
  }

  /** After its first run a longer hyphenated text goes on with one hyphen and
      another hyphenated text. */
  lemma HyphenatedTail(s: string)
    requires Hyphenated(s) && |TakeRun(s)| < |s|
    ensures
      var n := |TakeRun(s)|;
      s[n] == '-' && n + 1 < |s| && Hyphenated(s[n + 1..]) && Kept(s[n + 1]) && s == s[..n] + "-" + s[n + 1..]
  {
    var n := |TakeRun(s)|;
    assert s[n] == '-';
  }

  lemma {:induction false} HyphenatedIsJoined(s: string)
    requires Hyphenated(s)
    ensures Join(Runs(s)) == s
    decreases |s|
  {
    if s != [] {
      var run := TakeRun(s);
      assert run == s[..|run|];
      if |run| < |s| {
        HyphenatedTail(s);
        var after := s[|run| + 1..];
        assert s[|run|..][1..] == after;
        HyphenatedIsJoined(after);
        assert Runs(s) == [run] + Runs(after);
        assert ([run] + Runs(after))[1..] == Runs(after);
      } else {
        assert run == s && s[|run|..] == [];
      }
    }
  }

  /** slugify is idempotent, since lower-casing leaves a slug's characters alone. */
  lemma SlugIdempotent(name: string, lower: char -> char)
    requires forall c | Kept(c) || c == '-' :: lower(c) == c
    ensures SlugOf(SlugOf(name, lower), lower) == SlugOf(name, lower)
  {
    var slug := SlugOf(name, lower);
    SlugWellFormed(name, lower);
    assert Lowered(slug, lower) == slug;
    HyphenatedIsJoined(slug);
  }

  /** The kept characters of a text, in order. */
  function Letters(s: string): string {
    if s == [] then [] else Letters(s[..|s| - 1]) + (if Kept(s[|s| - 1]) then [s[|s| - 1]] else [])
  }

  lemma {:induction false} LettersConcat(a: string, b: string)
    ensures Letters(a + b) == Letters(a) + Letters(b)
  {
    if b == [] {
      assert a + b == a;
    } else {
      assert (a + b)[..|a + b| - 1] == a + b[..|b| - 1];
      LettersConcat(a, b[..|b| - 1]);
    }
  }

  /** Joining the runs loses no kept character and adds none. */
  lemma {:induction false} JoinKeepsLetters(s: string)
    ensures Letters(Join(Runs(s))) == Letters(s)
    decreases |s|
  {
    if s != [] && !Kept(s[0]) {
      JoinKeepsLetters(s[1..]);
      assert s == [s[0]] + s[1..];
      LettersConcat([s[0]], s[1..]);
    } else if s != [] {
      var run := TakeRun(s);
      var rest := s[|run|..];
      JoinKeepsLetters(rest);
      JoinCons(run, Runs(rest));
      LettersJoined(s, run, rest, "-", Join(Runs(rest)));
    }
  }

  lemma LettersJoined(s: string, run: string, rest: string, hyphen: string, joined: string)
    requires s == run + rest && Letters(joined) == Letters(rest) && hyphen == ['-']
    ensures Letters(run + (hyphen + joined)) == Letters(s) && (joined == "" ==> Letters(run) == Letters(s))
  {
    LettersConcat(run, rest);
    LettersConcat(run, hyphen + joined);
    LettersConcat(hyphen, joined);
    assert hyphen[..0] == [];
  }

  lemma JoinCons(run: string, runs: seq<string>)
    ensures Join([run] + runs) == if runs == [] then run else run + ("-" + Join(runs))
  {
    assert ([run] + runs)[1..] == runs;
  }

  lemma {:induction false} JoinLength(s: string)
    ensures |Join(Runs(s))| <= |s| && (s != [] && !Kept(s[0]) ==> |Join(Runs(s))| < |s|)
    decreases |s|
  {
    if s != [] && !Kept(s[0]) {
      JoinLength(s[1..]);
    } else if s != [] {
      var run := TakeRun(s);
      JoinLength(s[|run|..]);
      JoinCons(run, Runs(s[|run|..]));
    }
  }

  /** Trimming the cut takes off one hyphen at most. */
  lemma CutTrimsOne(s: string, n: nat)
    requires Hyphenated(s) && 0 < n < |s|
    ensures Trim(s[..n], IsHyphen) <= s && n - 1 <= |Trim(s[..n], IsHyphen)|
  {
    var cut := s[..n];
    assert TrimLeft(cut, IsHyphen) == cut;
    if cut[n - 1] == '-' {
      var shorter := cut[..n - 1];
      assert shorter != [] && shorter[n - 2] == s[n - 2] && cut[n - 1] == s[n - 1];
      assert TrimRight(shorter, IsHyphen) == shorter;
    }
  }

  lemma LettersPrefix(a: string, b: string)
    requires a <= b
    ensures Letters(a) <= Letters(b) && |Letters(a)| <= |a|
  {
    assert b == a + b[|a|..];
    LettersConcat(a, b[|a|..]);
    LettersLength(a);
  }

  lemma {:induction false} LettersLength(s: string)
    ensures |Letters(s)| <= |s|
  {
    if s != [] { LettersLength(s[..|s| - 1]); }
  }

  lemma {:induction false} RunHasLetter(s: string)
    requires Hyphenated(s) && s != []
    ensures Letters(s) != []
  {
    assert Kept(s[|s| - 1]);
  }

  /** A slug has the letters and digits of the lowered name in their order, all of them
      up to the cut, which takes nothing off a name of at most 80 characters. */
  lemma SlugKeepsLetters(name: string, lower: char -> char)
    ensures
      var text := Lowered(name, lower);
      if Letters(text) == "" then SlugOf(name, lower) == "org"
      else Letters(SlugOf(name, lower)) <= Letters(text) &&
           (|name| <= MAX_SLUG_LEN ==> Letters(SlugOf(name, lower)) == Letters(text)) &&
           (|Letters(text)| > MAX_SLUG_LEN ==> |SlugOf(name, lower)| >= MAX_SLUG_LEN - 1)
  {
    var text := Lowered(name, lower);
    var joined := Join(Runs(text));
    RunsShape(text);
    JoinHyphenated(Runs(text));
    JoinKeepsLetters(text);
    JoinLength(text);
    LettersLength(joined);
    if joined != [] { RunHasLetter(joined); }
    if |joined| > MAX_SLUG_LEN {
      CutTrimsOne(joined, MAX_SLUG_LEN);
      LettersPrefix(Trim(joined[..MAX_SLUG_LEN], IsHyphen), joined);
    }
  }

  /** Every text that has the form of a slug is its own slug. */
  lemma FormIsFixed(slug: string, lower: char -> char)
    requires Hyphenated(slug) && 0 < |slug| <= MAX_SLUG_LEN
    requires forall c | Kept(c) || c == '-' :: lower(c) == c
    ensures SlugOf(slug, lower) == slug
  {
    assert Lowered(slug, lower) == slug;
    HyphenatedIsJoined(slug);
  }

  // -------------------------------------------------------------- uniqueness

  function Digit(d: nat): char
    requires d < 10
  {
    ('0' as int + d) as char
  }

  function Decimal(n: nat): string {
    if n < 10 then [Digit(n)] else Decimal(n / 10) + [Digit(n % 10)]
  }

  function Candidate(base: string, i: nat): string {
    if i == 0 then base else base + "-" + Decimal(i + 1)
  }

  /** The number that a decimal text is read as. */
  function Value(s: string): int
    requires forall i :: 0 <= i < |s| ==> IsDigit(s[i])
  {
    if s == [] then 0 else 10 * Value(s[..|s| - 1]) + (s[|s| - 1] as int - '0' as int)
  }

  /** The suffix is the number's decimal text. */
  lemma {:induction false} DecimalReads(n: nat)
    ensures forall i :: 0 <= i < |Decimal(n)| ==> IsDigit(Decimal(n)[i])
    ensures Value(Decimal(n)) == n
    decreases n
  {
    var last := [Digit(n % 10)];
    if n >= 10 {
      DecimalReads(n / 10);
      assert (Decimal(n / 10) + last)[..|Decimal(n / 10)|] == Decimal(n / 10);
    } else {
      assert last[..0] == [];
    }
  }

  /** The candidates are the slug, then the slug with -2, -3 and so on, all different. */
  lemma CandidatesDiffer(base: string, i: nat, j: nat)
    requires i < j
    ensures Candidate(base, i) != Candidate(base, j)
    ensures Candidate(base, 0) == base
    ensures base + "-" <= Candidate(base, j) && Candidate(base, j)[|base| + 1..] == Decimal(j + 1)
  {
    DecimalReads(i + 1);
    DecimalReads(j + 1);
    assert Candidate(base, j)[|base| + 1..] == Decimal(j + 1);
    if i > 0 { assert Candidate(base, i)[|base| + 1..] == Decimal(i + 1); }
  }

  ghost predicate AllTaken(base: string, taken: set<string>, n: nat) {
    forall j :: 0 <= j < n ==> Candidate(base, j) in taken
  }

  ghost predicate FirstFree(base: string, taken: set<string>, i: nat, slug: string) {
    slug == Candidate(base, i) && AllTaken(base, taken, i)
  }

  /** The first free candidate, or a conflict when all of them are taken.
      `taken` is the slug column, which compares case-insensitively. */
  method UniqueSlug(name: string, lower: char -> char, taken: set<string>) returns (r: Result<string>)
    ensures r.Ok? ==> r.value !in taken
    ensures r.Ok? ==> exists i | 0 <= i < MAX_SLUG_ATTEMPTS :: FirstFree(SlugOf(name, lower), taken, i, r.value)
    ensures r.Err? ==> r.error == Conflict && AllTaken(SlugOf(name, lower), taken, MAX_SLUG_ATTEMPTS)
  {
    var base := Slugify(name, lower);
    var candidate := base;
    for i := 0 to MAX_SLUG_ATTEMPTS
      invariant AllTaken(base, taken, i)
    {
      if i > 0 {
        candidate := base + "-" + Decimal(i + 1);
      } else {
        candidate := base;
      }
      if candidate !in taken {
        assert FirstFree(base, taken, i, candidate);
        return Ok(candidate);
      }
    }
    return Err(Conflict);
  }
}
