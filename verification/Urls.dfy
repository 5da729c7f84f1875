/** URLs as the link service reads them, and the paths the router accepts. */
module Urls {
  import opened Common

  /** A parsed URL; text is the string it was parsed from. */
  datatype Url = Url(scheme: string, host: string, path: string, text: string)

  function TakeUntil(s: string, stop: char -> bool): (r: string)
    ensures r <= s && (forall c :: c in r ==> !stop(c))
    ensures |r| < |s| ==> stop(s[|r|])
  {
    if s == [] || stop(s[0]) then [] else [s[0]] + TakeUntil(s[1..], stop)
  }

  predicate EndsAuthority(c: char) { c == '/' || c == '?' || c == '#' }

  predicate EndsPath(c: char) { c == '?' || c == '#' }

  predicate IsSlash(c: char) { c == '/' }

  /** The scheme, the host without user info, and the path of a URL text. */
  function ParseUrl(raw: string): Option<Url> {
    var colon := IndexOf(raw, ':');
    if colon < 0 || !("://" <= raw[colon..]) then None
    else
      var rest := raw[colon + 3..];
      var authority := TakeUntil(rest, EndsAuthority);
      var path := TakeUntil(rest[|authority|..], EndsPath);
      Some(Url(raw[..colon], authority[LastIndexOf(authority, '@') + 1..], path, raw))
  }

  /** normalizeURL: the destination with https:// put in front when it has no
      scheme. */
  function NormalizeUrl(raw: string): Result<Url> {
    var raw := TrimSpace(raw);
    if raw == "" then Err(Unprocessable)
    else if !Contains(raw, "://") && ("http:" <= Lower(raw) || "https:" <= Lower(raw)) then Err(Unprocessable)
    else
      match ParseUrl(if Contains(raw, "://") then raw else "https://" + raw)
      case None => Err(Unprocessable)
      case Some(u) =>
        if (Lower(u.scheme) == "http" || Lower(u.scheme) == "https") && u.host != "" then Ok(u)
        else Err(Unprocessable)
  }

  predicate CodeChar(c: char) { IsAlphanumeric(c) || c == '_' || c == '-' }

  /** Text of the router's code pattern [a-zA-Z0-9_-]+. */
  predicate IsCode(s: string) { s != "" && forall i :: 0 <= i < |s| ==> CodeChar(s[i]) }

  /** Text of the router's prefix pattern [a-zA-Z0-9]+. */
  predicate IsPrefixText(s: string) { s != "" && forall i :: 0 <= i < |s| ==> IsAlphanumeric(s[i]) }

  /** The redirect routes: /{code} and /{prefix}/{code}. */
  function Route(path: string): Option<(string, string)> {
    if path == "" || path[0] != '/' then None
    else
      var rest := path[1..];
      var slash := IndexOf(rest, '/');
      if slash < 0 then (if IsCode(rest) then Some(("", rest)) else None)
      else if IsPrefixText(rest[..slash]) && IsCode(rest[slash + 1..]) then Some((rest[..slash], rest[slash + 1..]))
      else None
  }

  // ----------------------------------------------------------- printed URLs

  /** A configured host[:port] that a URL text can carry as it is. */
  predicate CleanHost(host: string) {
    host != "" && forall i :: 0 <= i < |host| ==> !EndsAuthority(host[i]) && host[i] != '@'
  }

  predicate HttpScheme(scheme: string) { scheme == "http" || scheme == "https" }

  /** The path part of a displayed URL: the code, behind a prefix if there is one. */
  function Tail(prefix: string, code: string): string {
    if prefix == "" then code else prefix + "/" + code
  }

  function Print(scheme: string, host: string, prefix: string, code: string): string {
    scheme + ("://" + (host + ("/" + Tail(prefix, code))))
  }

  lemma {:induction false} TakeUntilConcat(a: string, b: string, stop: char -> bool)
    requires forall i :: 0 <= i < |a| ==> !stop(a[i])
    requires b != [] ==> stop(b[0])
    ensures TakeUntil(a + b, stop) == a
  {
    if a == [] {
      assert a + b == b;
    } else {
      assert (a + b)[1..] == a[1..] + b;
      TakeUntilConcat(a[1..], b, stop);
    }
  }

  lemma {:induction false} ContainsMiddle(a: string, part: string, b: string)
    ensures Contains(a + part + b, part)
  {
    if a == [] {
      assert a + part + b == part + b;
    } else {
      assert (a + part + b)[1..] == a[1..] + part + b;
      ContainsMiddle(a[1..], part, b);
    }
  }

  predicate CleanTail(prefix: string, code: string) {
    IsCode(code) && (prefix == "" || IsPrefixText(prefix))
  }

  lemma TailChars(prefix: string, code: string)
    requires CleanTail(prefix, code)
    ensures forall i :: 0 <= i < |Tail(prefix, code)| ==>
            CodeChar(Tail(prefix, code)[i]) || Tail(prefix, code)[i] == '/'
  {
  }

  /** Host and path of what follows the scheme separator. */
  lemma AuthorityParses(host: string, path: string)
    requires CleanHost(host) && path != "" && path[0] == '/' && forall i :: 0 <= i < |path| ==> !EndsPath(path[i])
    ensures
      var authority := TakeUntil(host + path, EndsAuthority);
      authority == host && authority[LastIndexOf(authority, '@') + 1..] == host &&
      TakeUntil((host + path)[|authority|..], EndsPath) == path
  {
    TakeUntilConcat(host, path, EndsAuthority);
    assert path + "" == path;
    TakeUntilConcat(path, "", EndsPath);
  }

  lemma SchemeParses(scheme: string, rest: string)
    requires HttpScheme(scheme)
    ensures
      var text := scheme + ("://" + rest);
      IndexOf(text, ':') == |scheme| && "://" <= text[|scheme|..] &&
      text[..|scheme|] == scheme && text[|scheme| + 3..] == rest
  {
    IndexOfConcat(scheme, "://" + rest, ':');
    assert scheme + ("://" + rest) == scheme + "://" + rest;
    assert ("://" + rest)[..3] == "://";
  }

  /** Parsing a printed URL gives back its scheme, host and path. */
  lemma PrintParses(scheme: string, host: string, prefix: string, code: string)
    requires HttpScheme(scheme) && CleanHost(host) && CleanTail(prefix, code)
    ensures
      var text := Print(scheme, host, prefix, code);
      ParseUrl(text) == Some(Url(scheme, host, "/" + Tail(prefix, code), text))
  {
    var path := "/" + Tail(prefix, code);
    TailChars(prefix, code);
    SchemeParses(scheme, host + path);
    AuthorityParses(host, path);
  }

  /** The router reads the prefix and the code of a printed path. */
  lemma PrintRoutes(prefix: string, code: string)
    requires CleanTail(prefix, code)
    ensures Route("/" + Tail(prefix, code)) == Some((prefix, code))
  {
    var rest := Tail(prefix, code);
    assert ("/" + rest)[1..] == rest;
    if prefix == "" {
      assert '/' !in code;
    } else {
      assert rest == prefix + ("/" + code);
      assert '/' !in prefix;
      IndexOfConcat(prefix, "/" + code, '/');
      assert rest[|prefix| + 1..] == code;
    }
  }

  /** Submitting a printed URL to be shortened parses to the same host and path. */
  lemma PrintNormalizes(scheme: string, host: string, prefix: string, code: string)
    requires HttpScheme(scheme) && CleanHost(host) && CleanTail(prefix, code)
    ensures
      var text := Print(scheme, host, prefix, code);
      NormalizeUrl(text) == Ok(Url(scheme, host, "/" + Tail(prefix, code), text))
  {
    var text := Print(scheme, host, prefix, code);
    PrintParses(scheme, host, prefix, code);
    PrintTrimmed(scheme, host, prefix, code);
    HasSeparator(scheme, host + ("/" + Tail(prefix, code)));
    LowerScheme(scheme);
  }

  lemma HasSeparator(scheme: string, rest: string)
    ensures Contains(scheme + ("://" + rest), "://")
  {
    ContainsMiddle(scheme, "://", rest);
    assert scheme + ("://" + rest) == scheme + "://" + rest;
  }

  lemma LowerScheme(scheme: string)
    requires HttpScheme(scheme)
    ensures Lower(scheme) == scheme
  {
  }

  lemma PrintTrimmed(scheme: string, host: string, prefix: string, code: string)
    requires HttpScheme(scheme) && CleanTail(prefix, code)
    ensures TrimSpace(Print(scheme, host, prefix, code)) == Print(scheme, host, prefix, code) != ""
  {
    var text := Print(scheme, host, prefix, code);
    assert text[0] == 'h';
    assert text[|text| - 1] == code[|code| - 1];
    TrimClean(text, IsSpace);
  }

  /** What is accepted: a text with an http or https scheme and a host, taken as it is but
      for the space around it, or one without any scheme, which is read as https. */
  lemma NormalizedUrl(raw: string)
    ensures
      var text, r := TrimSpace(raw), NormalizeUrl(raw);
      r.Ok? ==>
        ParseUrl(r.value.text) == Some(r.value) && HttpScheme(Lower(r.value.scheme)) && r.value.host != "" &&
        r.value.text == if Contains(text, "://") then text else "https://" + text
  {
  }

  lemma PartsParse(scheme: string, host: string, path: string)
    requires HttpScheme(scheme) && CleanHost(host) && path != "" && path[0] == '/'
    requires forall i :: 0 <= i < |path| ==> !EndsPath(path[i])
    ensures
      var text := scheme + ("://" + (host + path));
      ParseUrl(text) == Some(Url(scheme, host, path, text))
  {
    SchemeParses(scheme, host + path);
    AuthorityParses(host, path);
  }

  lemma NoColon(raw: string, separator: string, http: string, https: string)
    requires ':' !in raw && separator == "://" && http == "http:" && https == "https:"
    ensures !Contains(raw, separator) && !(http <= Lower(raw)) && !(https <= Lower(raw))
  {
    ContainsFirst(raw, separator);
    assert ':' !in Lower(raw);
    assert http[4] == ':' && https[5] == ':';
  }

  /** A host and a path without a scheme become an https URL. */
  lemma SchemelessIsHttps(host: string, path: string)
    requires CleanHost(host) && ':' !in host + path && path != "" && path[0] == '/'
    requires !IsSpace(host[0]) && !IsSpace(path[|path| - 1]) && forall i :: 0 <= i < |path| ==> !EndsPath(path[i])
    ensures NormalizeUrl(host + path) == Ok(Url("https", host, path, "https" + ("://" + (host + path))))
  {
    var raw, scheme := host + path, "https";
    TrimClean(raw, IsSpace);
    NoColon(raw, "://", "http:", "https:");
    PartsParse(scheme, host, path);
    HttpsText(raw);
    LowerScheme(scheme);
  }

  lemma HttpsText(raw: string)
    ensures "https://" + raw == "https" + ("://" + raw)
  {
  }

  /** User info in front of the host is no part of it. */
  lemma UserInfoDropped(scheme: string, info: string, host: string, path: string)
    requires HttpScheme(scheme) && CleanHost(host) && path != "" && path[0] == '/'
    requires forall i :: 0 <= i < |info| ==> !EndsAuthority(info[i])
    requires forall i :: 0 <= i < |path| ==> !EndsPath(path[i])
    ensures
      var text := scheme + ("://" + (info + ['@'] + host + path));
      ParseUrl(text) == Some(Url(scheme, host, path, text))
  {
    var authority := info + ['@'] + host;
    SchemeParses(scheme, authority + path);
    TakeUntilConcat(authority, path, EndsAuthority);
    TakeUntilConcat(path, "", EndsPath);
    assert path + "" == path && (authority + path)[|authority|..] == path;
    LastIndexIs(info, '@', host);
    assert authority[|info| + 1..] == host;
  }

  /** The router reads exactly the paths /code and /prefix/code. */
  lemma RoutedIff(path: string, prefix: string, code: string)
    ensures Route(path) == Some((prefix, code)) <==> CleanTail(prefix, code) && path == "/" + Tail(prefix, code)
  {
    if CleanTail(prefix, code) && path == "/" + Tail(prefix, code) {
      PrintRoutes(prefix, code);
    }
    if Route(path) == Some((prefix, code)) {
      var rest := path[1..];
      var slash := IndexOf(rest, '/');
      assert path == "/" + rest;
      if slash >= 0 { assert rest == rest[..slash] + "/" + rest[slash + 1..]; }
    }
  }
}
