/** Escaping of LIKE metacharacters in the operator's search terms. Characters
    compare through a fold, as the columns' collation does. */
module LikePattern {

  function Escaped(c: char): string {
    if c == '\\' then "\\\\" else if c == '%' then "\\%" else if c == '_' then "\\_" else [c]
  }

  /** strings.NewReplacer over three one-character patterns. */
  function Escape(term: string): string {
    if term == [] then [] else Escaped(term[0]) + Escape(term[1..])
  }

  function Pattern(term: string): string {
    "%" + Escape(term) + "%"
  }

  /** MySQL's LIKE: % matches any run, _ any one character, a backslash makes
      the next pattern character literal and is itself literal at the end. */
  predicate Like(fold: char -> char, pattern: string, s: string)
    decreases |pattern|, |s|
  {
    if pattern == [] then s == []
    else if pattern[0] == '%' then
      Like(fold, pattern[1..], s) || (s != [] && Like(fold, pattern, s[1..]))
    else if pattern[0] == '_' then
      s != [] && Like(fold, pattern[1..], s[1..])
    else if pattern[0] == '\\' && |pattern| > 1 then
      s != [] && fold(s[0]) == fold(pattern[1]) && Like(fold, pattern[2..], s[1..])
    else
      s != [] && fold(s[0]) == fold(pattern[0]) && Like(fold, pattern[1..], s[1..])
  }

  ghost predicate SameText(fold: char -> char, a: string, b: string) {
    |a| == |b| && forall i :: 0 <= i < |a| ==> fold(a[i]) == fold(b[i])
  }

  /** The term occurs in s, read literally. */
  ghost predicate Occurs(fold: char -> char, term: string, s: string) {
    exists i :: 0 <= i <= |s| - |term| && SameTextAt(fold, term, s, i)
  }

  ghost predicate SameTextAt(fold: char -> char, term: string, s: string, i: nat)
    requires i + |term| <= |s|
  {
    SameText(fold, term, s[i..i + |term|])
  }

  lemma {:induction false} PercentMatchesAll(fold: char -> char, s: string)
    ensures Like(fold, "%", s)
  {
    assert "%"[1..] == "";
    if s != [] { PercentMatchesAll(fold, s[1..]); }
  }

  /** An escaped term followed by % matches exactly the strings that begin with
      the term. */
  lemma {:induction false} EscapedMatchesPrefix(fold: char -> char, term: string, s: string)
    ensures Like(fold, Escape(term) + "%", s) <==> |term| <= |s| && SameText(fold, term, s[..|term|])
  {
    if term == [] {
      assert Escape(term) + "%" == "%";
      PercentMatchesAll(fold, s);
    } else {
      var rest := Escape(term[1..]) + "%";
      assert Escape(term) + "%" == Escaped(term[0]) + rest;
      if s != [] { EscapedMatchesPrefix(fold, term[1..], s[1..]); }
    }
  }

  lemma {:induction false} PatternMatchesSuffix(fold: char -> char, rest: string, s: string)
    ensures Like(fold, "%" + rest, s) <==> exists i :: 0 <= i <= |s| && Like(fold, rest, s[i..])
  {
    assert ("%" + rest)[1..] == rest;
    assert s[0..] == s;
    if s != [] {
      PatternMatchesSuffix(fold, rest, s[1..]);
      assert forall i :: 0 <= i <= |s| - 1 ==> s[1..][i..] == s[i + 1..];
      if j :| 0 < j <= |s| && Like(fold, rest, s[j..]) {
        assert s[1..][j - 1..] == s[j..];
      }
    }
  }

  /** Exactness: whatever metacharacters the term holds, the pattern matches a
      string iff the term occurs in it literally. */
  lemma PatternExact(fold: char -> char, term: string, s: string)
    ensures Like(fold, Pattern(term), s) <==> Occurs(fold, term, s)
  {
    var rest := Escape(term) + "%";
    assert Pattern(term) == "%" + rest;
    PatternMatchesSuffix(fold, rest, s);
    forall i | 0 <= i <= |s|
      ensures Like(fold, rest, s[i..]) <==> i <= |s| - |term| && SameTextAt(fold, term, s, i)
    {
      EscapedMatchesPrefix(fold, term, s[i..]);
      if i <= |s| - |term| {
        assert s[i..][..|term|] == s[i..i + |term|];
      }
    }
  }
}
