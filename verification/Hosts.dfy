/** Host headers and registered hostnames. */
module Hosts {
  import opened Common

  /** net.SplitHostPort, for the host part: None when it reports an error. */
  function SplitHostPort(s: string): Option<string> {
    var colon := LastIndexOf(s, ':');
    if colon < 0 then None
    else if s[0] == '[' then
      var close := IndexOf(s, ']');
      if close < 0 || close + 1 != colon || '[' in s[1..] || ']' in s[close + 1..] then None
      else Some(s[1..close])
    else if ':' in s[..colon] || '[' in s || ']' in s then None
    else Some(s[..colon])
  }

  function NormalizeHost(host: string): string {
    var h := Lower(TrimSpace(host));
    TrimSuffix(match SplitHostPort(h) { case Some(name) => name case None => h }, ".")
  }

  predicate IsDeploymentHost(host: string, shortDomain: string) {
    var h := NormalizeHost(host);
    h == "" || h == NormalizeHost(shortDomain) || h == "localhost" || h == "127.0.0.1" || h == "::1"
  }

  // ---------------------------------------------------- registered hostnames

  predicate IsLower(c: char) { 'a' <= c <= 'z' || IsDigit(c) }

  /** One DNS label: letters, digits and inner hyphens, at most 63. */
  predicate IsLabel(s: string) {
    && 0 < |s| <= 63
    && (forall i :: 0 <= i < |s| ==> IsLower(s[i]) || s[i] == '-')
    && s[0] != '-' && s[|s| - 1] != '-'
  }

  /** Every dot-separated label is one. */
  predicate AllLabels(s: string)
    decreases |s|
  {
    var dot := IndexOf(s, '.');
    if dot < 0 then IsLabel(s) else IsLabel(s[..dot]) && AllLabels(s[dot + 1..])
  }

  predicate RejectedHost(hostname: string, shortDomain: string) {
    var short := NormalizeHost(shortDomain);
    hostname == short || HasSuffix(hostname, "." + short)
  }

  /** What a stored hostname looks like. */
  predicate ValidHostname(h: string, shortDomain: string) {
    '.' in h && |h| <= 253 && AllLabels(h) && !RejectedHost(h, shortDomain)
  }

  function Trimmed(raw: string): string {
    TrimSuffix(Lower(TrimSpace(raw)), ".")
  }

  /** The checks before the IDNA mapping: a bare name, and no IP address. */
  predicate Bare(h: string, isIP: string -> bool) {
    h != "" && !Contains(h, "://") && '/' !in h && ':' !in h && !(exists c | c in h :: c in " \t@?#&") && !isIP(h)
  }

  /** normalizeHostname; idna.Lookup.ToASCII and net.ParseIP are parameters. */
  function NormalizeHostname(raw: string, shortDomain: string, toAscii: string -> Option<string>,
                             isIP: string -> bool): Result<string> {
    var h := Trimmed(raw);
    if !Bare(h, isIP) then Err(Unprocessable)
    else
      match toAscii(h)
      case None => Err(Unprocessable)
      case Some(ascii) =>
        if ascii == "" || |ascii| > 253 || '.' !in ascii || !AllLabels(ascii) || RejectedHost(ascii, shortDomain)
        then Err(Unprocessable)
        else Ok(ascii)
  }

  /** Which texts are stored and as what: trimmed, lower-cased and without a final dot,
      the text names no port, path or scheme and is no IP address, and its mapping has a
      dot, at most 253 characters and labels only, and is no host of the deployment. */
  lemma HostnameStoredIff(raw: string, shortDomain: string, toAscii: string -> Option<string>, isIP: string -> bool,
                          stored: string)
    ensures
      var text, short := Trimmed(raw), NormalizeHost(shortDomain);
      NormalizeHostname(raw, shortDomain, toAscii, isIP) == Ok(stored) <==>
      (forall c | c in text :: c != '/' && c != ':' && c != ' ' && c != '\t' && c != '@' && c != '?' && c != '#' &&
                               c != '&') &&
      text != "" && !isIP(text) && toAscii(text) == Some(stored) &&
      '.' in stored && |stored| <= 253 && SegmentsLabels(stored) &&
      stored != short && !HasSuffix(stored, "." + short)
  {
    var text := Trimmed(raw);
    ContainsFirst(text, "://");
    LabelsIff(stored);
    assert forall c :: c in " \t@?#&" <==> c == ' ' || c == '\t' || c == '@' || c == '?' || c == '#' || c == '&';
  }

  lemma NormalizedIsValid(raw: string, shortDomain: string, toAscii: string -> Option<string>, isIP: string -> bool)
    requires NormalizeHostname(raw, shortDomain, toAscii, isIP).Ok?
    ensures ValidHostname(NormalizeHostname(raw, shortDomain, toAscii, isIP).value, shortDomain)
  {
  }

  /** A maximal dot-free part of the name. */
  predicate Segment(s: string, i: int, j: int) {
    0 <= i <= j <= |s| && (i == 0 || s[i - 1] == '.') && (j == |s| || s[j] == '.') && '.' !in s[i..j]
  }

  /** One to 63 lower-case letters, digits and hyphens, the last not at the ends. */
  predicate LabelText(s: string) {
    1 <= |s| <= 63 && (forall c :: c in s ==> 'a' <= c <= 'z' || '0' <= c <= '9' || c == '-') &&
    s[0] != '-' && s[|s| - 1] != '-'
  }

  ghost predicate SegmentsLabels(s: string) {
    forall i, j :: Segment(s, i, j) ==> LabelText(s[i..j])
  }

  lemma LabelIsText(s: string)
    ensures IsLabel(s) <==> LabelText(s)
  {
    assert forall i :: 0 <= i < |s| ==> s[i] in s;
  }

  /** A name is made of labels if and only if each of its dot-free parts is one. */
  lemma {:induction false} LabelsIff(s: string)
    ensures AllLabels(s) <==> SegmentsLabels(s)
    decreases |s|
  {
    var dot := IndexOf(s, '.');
    if dot < 0 {
      LabelIsText(s);
      assert s[0..|s|] == s && Segment(s, 0, |s|);
      assert forall i, j :: Segment(s, i, j) ==> i == 0 && j == |s|;
    } else {
      LabelIsText(s[..dot]);
      LabelsIff(s[dot + 1..]);
      FirstSegment(s, dot);
    }
  }

  lemma SegmentLater(s: string, dot: int, i: int, j: int)
    requires 0 <= dot < |s| && s[dot] == '.' && '.' !in s[..dot]
    ensures Segment(s[dot + 1..], i, j) <==> Segment(s, i + dot + 1, j + dot + 1) && 0 <= i
    ensures Segment(s[dot + 1..], i, j) ==> s[dot + 1..][i..j] == s[i + dot + 1..j + dot + 1]
  {
    if 0 <= i <= j <= |s| - dot - 1 { assert s[dot + 1..][i..j] == s[i + dot + 1..j + dot + 1]; }
  }

  lemma FirstSegment(s: string, dot: int)
    requires 0 <= dot < |s| && s[dot] == '.' && '.' !in s[..dot]
    ensures SegmentsLabels(s) <==> LabelText(s[..dot]) && SegmentsLabels(s[dot + 1..])
  {
    var rest := s[dot + 1..];
    assert s[0..dot] == s[..dot] && Segment(s, 0, dot);
    assert forall k :: 0 <= k < dot ==> s[..dot][k] == s[k];
    assert forall i, j :: Segment(s, i, j) ==> (i == 0 && j == dot) || i > dot;
    forall i, j ensures Segment(rest, i, j) <==> Segment(s, i + dot + 1, j + dot + 1) && 0 <= i
      ensures Segment(rest, i, j) ==> rest[i..j] == s[i + dot + 1..j + dot + 1]
    {
      SegmentLater(s, dot, i, j);
    }
    if SegmentsLabels(s) {
      forall i, j | Segment(rest, i, j) ensures LabelText(rest[i..j]) {
        assert Segment(s, i + dot + 1, j + dot + 1);
      }
    }
    if LabelText(s[..dot]) && SegmentsLabels(rest) {
      forall i, j | Segment(s, i, j) ensures LabelText(s[i..j]) {
        if i > dot { assert Segment(rest, i - dot - 1, j - dot - 1); }
      }
    }
  }

  predicate HostChar(c: char) { IsLower(c) || c == '-' || c == '.' }

  /** A name made of labels has only host characters and no dot or hyphen at
      its ends. */
  lemma {:induction false} LabelsShape(s: string)
    requires AllLabels(s)
    ensures s != [] && IsLower(s[0]) && IsLower(s[|s| - 1])
    ensures forall i :: 0 <= i < |s| ==> HostChar(s[i])
    decreases |s|
  {
    var dot := IndexOf(s, '.');
    if dot >= 0 {
      LabelsShape(s[dot + 1..]);
      assert forall i :: 0 <= i < dot ==> s[i] == s[..dot][i];
      assert forall i :: dot < i < |s| ==> s[i] == s[dot + 1..][i - dot - 1];
    }
  }

  lemma HostCharsOnly(h: string)
    requires forall i :: 0 <= i < |h| ==> HostChar(h[i])
    ensures Lower(h) == h && ':' !in h
  {
    assert forall i :: 0 <= i < |h| ==> LowerChar(h[i]) == h[i];
  }

  /** Stored hostnames are in normal form: a request for one names it exactly. */
  lemma HostnameNormal(h: string)
    requires AllLabels(h)
    ensures h != [] && NormalizeHost(h) == h && Lower(h) == h
    ensures forall i :: 0 <= i < |h| ==> HostChar(h[i])
  {
    LabelsShape(h);
    HostCharsOnly(h);
    TrimClean(h, IsSpace);
  }

  /** A stored hostname is the deployment's own host only as the literal
      127.0.0.1, which can pass the IP check when IDNA mapping produces it. */
  lemma StoredHostIsForeign(h: string, shortDomain: string)
    requires ValidHostname(h, shortDomain)
    ensures IsDeploymentHost(h, shortDomain) <==> h == "127.0.0.1"
    ensures !EqualFold(h, shortDomain)
  {
    HostnameNormal(h);
    assert "::1"[0] == ':' && '.' !in "localhost";
    if EqualFold(h, shortDomain) {
      EqualFoldNormal(h, shortDomain);
    }
  }

  predicate DotFree(s: string) { IsLabel(s) && '.' !in s }

  lemma FourLabels(a: string, b: string, c: string, d: string)
    requires DotFree(a) && DotFree(b) && DotFree(c) && DotFree(d)
    ensures AllLabels(a + "." + (b + "." + (c + "." + d)))
  {
    LabelThen(c, d);
    LabelThen(b, c + "." + d);
    LabelThen(a, b + "." + (c + "." + d));
  }

  lemma LoopbackLabels()
    ensures AllLabels("127.0.0.1") && '.' in "127.0.0.1"
  {
    FourLabels("127", "0", "0", "1");
    LoopbackText();
  }

  lemma LoopbackText()
    ensures "127" + "." + ("0" + "." + ("0" + "." + "1")) == "127.0.0.1" && '.' in "127.0.0.1"
  {
    assert "127.0.0.1"[3] == '.';
  }

  lemma LabelThen(first: string, rest: string)
    requires IsLabel(first) && '.' !in first
    ensures AllLabels(first + "." + rest) <==> AllLabels(rest)
  {
    var s := first + "." + rest;
    assert s == first + ("." + rest);
    IndexOfConcat(first, "." + rest, '.');
    assert s[..|first|] == first && s[|first| + 1..] == rest;
  }

  /** Exactly which registrations store a name that counts as the deployment's own:
      the bare, non-IP texts that the IDNA mapping turns into 127.0.0.1, unless the
      short domain is that literal itself or a parent of it. */
  lemma LoopbackStoredIff(raw: string, shortDomain: string, toAscii: string -> Option<string>, isIP: string -> bool)
    ensures
      var r := NormalizeHostname(raw, shortDomain, toAscii, isIP);
      (r.Ok? && IsDeploymentHost(r.value, shortDomain)) <==>
      (Bare(Trimmed(raw), isIP) && toAscii(Trimmed(raw)) == Some("127.0.0.1") &&
       !RejectedHost("127.0.0.1", shortDomain))
  {
    var r := NormalizeHostname(raw, shortDomain, toAscii, isIP);
    LoopbackLabels();
    if r.Ok? {
      StoredHostIsForeign(r.value, shortDomain);
    }
    var mapped := toAscii(Trimmed(raw)) == Some("127.0.0.1");
    if Bare(Trimmed(raw), isIP) && mapped && !RejectedHost("127.0.0.1", shortDomain) {
      assert r == Ok("127.0.0.1");
      StoredHostIsForeign("127.0.0.1", shortDomain);
    }
  }

  lemma EqualFoldNormal(h: string, other: string)
    requires AllLabels(h) && Lower(h) == Lower(other)
    ensures NormalizeHost(other) == h
  {
    HostnameNormal(h);
    FoldedEnds(h, other);
    TrimClean(other, IsSpace);
    TrimClean(h, IsSpace);
  }

  lemma FoldedEnds(h: string, other: string)
    requires h != [] && Lower(h) == Lower(other) && forall i :: 0 <= i < |h| ==> HostChar(h[i])
    ensures |other| == |h| && !IsSpace(other[0]) && !IsSpace(other[|other| - 1])
    ensures !IsSpace(h[0]) && !IsSpace(h[|h| - 1])
  {
    var n := |h| - 1;
    assert |other| == |h|;
    assert LowerChar(h[0]) == Lower(h)[0] == Lower(other)[0] == LowerChar(other[0]);
    assert LowerChar(h[n]) == Lower(h)[n] == Lower(other)[n] == LowerChar(other[n]);
  }

  lemma LowerConcat(a: string, b: string)
    ensures Lower(a + b) == Lower(a) + Lower(b)
  {
  }

  /** What matters of a stored hostname here. */
  predicate PlainHost(h: string) {
    h != "" && IsLower(h[0]) && IsLower(h[|h| - 1]) && forall i :: 0 <= i < |h| ==> HostChar(h[i])
  }

  lemma SuffixGoes(h: string, dot: string)
    ensures TrimSuffix(h + dot, dot) == h
    ensures dot != [] && !(dot <= []) && h != [] && |dot| == 1 && h[|h| - 1] != dot[0] ==> TrimSuffix(h, dot) == h
  {
  }

  lemma HeaderWithDot(h: string, header: string, dot: string)
    requires PlainHost(h) && Lower(header) == h && dot == "."
    ensures NormalizeHost(header + dot) == h
  {
    var text := header + dot;
    FoldedEnds(h, header);
    TrimClean(text, IsSpace);
    LowerConcat(header, dot);
    assert Lower(dot) == dot;
    NoPort(h + dot);
    SuffixGoes(h, dot);
  }

  lemma NoPort(s: string)
    requires ':' !in s
    ensures SplitHostPort(s) == None
  {
  }

  lemma HeaderWithPort(h: string, header: string, colon: string, port: string)
    requires PlainHost(h) && Lower(header) == h && colon == ":" && forall i :: 0 <= i < |port| ==> IsDigit(port[i])
    ensures NormalizeHost(header + colon + port) == h
  {
    var text := header + colon + port;
    FoldedEnds(h, header);
    TrimClean(text, IsSpace);
    LowerConcat(header, colon);
    LowerConcat(header + colon, port);
    assert Lower(colon) == colon && Lower(port) == port;
    PortSplits(h, colon, port);
    SuffixGoes(h, ".");
  }

  lemma PortSplits(h: string, colon: string, port: string)
    requires PlainHost(h) && colon == ":" && forall i :: 0 <= i < |port| ==> IsDigit(port[i])
    ensures SplitHostPort(h + colon + port) == Some(h)
  {
    var s := h + colon + port;
    LastIndexIs(h, ':', port);
    assert s == h + [':'] + port;
    assert s[..|h|] == h && s[0] == h[0];
    NoBrackets(h, port);
    assert forall ch :: ch in s ==> ch in h || ch == ':' || ch in port;
  }

  lemma NoBrackets(h: string, port: string)
    requires PlainHost(h) && forall i :: 0 <= i < |port| ==> IsDigit(port[i])
    ensures ':' !in h && '[' !in h && ']' !in h && '[' !in port && ']' !in port
  {
  }

  lemma HeaderPlain(h: string, header: string)
    requires PlainHost(h) && Lower(header) == h
    ensures NormalizeHost(header) == h
  {
    FoldedEnds(h, header);
    TrimClean(header, IsSpace);
    NoPort(h);
    SuffixGoes(h, ".");
  }

  /** A Host header names a host with or without a port, with or without the final dot,
      and in any case. */
  lemma HeaderForms(h: string, header: string, port: string)
    requires PlainHost(h) && Lower(header) == h && forall i :: 0 <= i < |port| ==> IsDigit(port[i])
    ensures NormalizeHost(header) == h && NormalizeHost(header + ".") == h
    ensures NormalizeHost(header + ":" + port) == h
  {
    HeaderPlain(h, header);
    HeaderWithDot(h, header, ".");
    HeaderWithPort(h, header, ":", port);
  }

  /** Every stored hostname is such a host. */
  lemma StoredIsPlain(h: string)
    requires AllLabels(h)
    ensures PlainHost(h)
  {
    LabelsShape(h);
  }

  /** The deployment answers for itself under its short domain, and on the local machine
      in any form of the header. */
  lemma OwnHosts(shortDomain: string, name: string, header: string, port: string)
    requires PlainHost(name) && (name == "localhost" || name == "127.0.0.1") && Lower(header) == name
    requires forall i :: 0 <= i < |port| ==> IsDigit(port[i])
    ensures IsDeploymentHost(shortDomain, shortDomain)
    ensures IsDeploymentHost(header, shortDomain) && IsDeploymentHost(header + ":" + port, shortDomain)
  {
    HeaderPlain(name, header);
    HeaderWithPort(name, header, ":", port);
  }

  /** A request without a Host header is the deployment's own too. */
  lemma NoHeaderIsOwn(shortDomain: string)
    ensures IsDeploymentHost("", shortDomain)
  {
  }

  lemma ValidIsNormal(h: string, shortDomain: string)
    requires ValidHostname(h, shortDomain)
    ensures h != [] && NormalizeHost(h) == h && forall i :: 0 <= i < |h| ==> HostChar(h[i])
  {
    HostnameNormal(h);
  }
}
