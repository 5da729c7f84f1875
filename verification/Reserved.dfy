/** Words that can never become short codes, in two scopes. */
module Reserved {
  import opened Common

  const AUTH_SHAPED: seq<string> := [
    "signin", "signup", "sign-in", "sign-up", "login", "logout", "register",
    "password", "passwords", "reset", "reset-password", "forgot-password",
    "verify", "verification", "confirm", "activate", "auth", "oauth",
    "oauth2", "sso", "saml", "openid", "token", "session", "sessions",
    "account", "accounts", "profile", "settings", "billing", "subscribe",
    "unsubscribe", "invite", "invites", "member", "members", "admin",
    "administrator", "root", "dashboard", "console"
  ]

  const FUNCTIONAL: seq<string> := [
    "api", "app", "www", "web", "mail", "email", "smtp", "ftp", "static",
    "assets", "asset", "cdn", "img", "images", "image", "css", "js",
    "fonts", "media", "files", "file", "download", "downloads", "upload",
    "uploads", "metrics", "health", "healthz", "alive", "ready", "ping",
    "debug", "internal", "system", "config", "webhook", "webhooks",
    "callback", "callbacks", "graphql", "rpc", "grpc", "swagger",
    "openapi", "favicon.ico", "robots.txt", "sitemap.xml", ".well-known",
    "null", "undefined", "test", "localhost"
  ]

  const LEGAL_BRAND: seq<string> := [
    "terms", "tos", "privacy", "legal", "policy", "policies", "cookies",
    "gdpr", "dmca", "copyright", "license", "imprint", "pricing", "plans",
    "features", "compare", "self-host", "selfhost", "enterprise", "docs",
    "documentation", "developers", "blog", "news", "changelog", "status",
    "abuse", "report", "security", "trust", "support", "help", "faq",
    "contact", "about", "team", "careers", "jobs", "press", "partners"
  ]

  /** The two word sets: full for the shared short domain, functional for an org with
      a verified custom domain. */
  datatype ReservedAliases = ReservedAliases(full: set<string>, functional: set<string>)

  function IsReserved(r: ReservedAliases, word: string, customDomainScope: bool): bool {
    if customDomainScope then Lower(word) in r.functional else Lower(word) in r.full
  }

  /** Every reserved word of the relaxed scope is reserved in the strict one. */
  ghost predicate Nested(r: ReservedAliases) {
    r.functional <= r.full
  }

  function Words(list: seq<string>): set<string> {
    set w | w in list
  }

  function Extra(words: seq<string>): set<string> {
    set w | w in words && Lower(TrimSpace(w)) != "" :: Lower(TrimSpace(w))
  }

  method AddAll(to: set<string>, list: seq<string>) returns (r: set<string>)
    ensures r == to + Words(list)
  {
    r := to;
    for i := 0 to |list|
      invariant r == to + Words(list[..i])
    {
      assert list[..i + 1] == list[..i] + [list[i]];
      r := r + {list[i]};
    }
    assert list[..|list|] == list;
  }

  method NewReservedAliases(extra: seq<string>) returns (r: ReservedAliases)
    ensures r.full == Words(AUTH_SHAPED) + Words(FUNCTIONAL) + Words(LEGAL_BRAND) + Extra(extra)
    ensures r.functional == Words(FUNCTIONAL) + Extra(extra)
    ensures Nested(r)
  {
    r := Build(AUTH_SHAPED, FUNCTIONAL, LEGAL_BRAND, extra);
  }

  method Build(auth: seq<string>, functional: seq<string>, legal: seq<string>, extra: seq<string>)
    returns (r: ReservedAliases)
    ensures r.full == Words(auth) + Words(functional) + Words(legal) + Extra(extra)
    ensures r.functional == Words(functional) + Extra(extra)
    ensures Nested(r)
  {
    var full := AddAll({}, auth);
    full := AddAll(full, functional);
    full := AddAll(full, legal);
    var relaxed := AddAll({}, functional);
    ghost var full0, relaxed0 := full, relaxed;
    for i := 0 to |extra|
      invariant full == full0 + Extra(extra[..i])
      invariant relaxed == relaxed0 + Extra(extra[..i])
    {
      assert extra[..i + 1] == extra[..i] + [extra[i]];
      var word := Lower(TrimSpace(extra[i]));
      if word != "" {
        full := full + {word};
        relaxed := relaxed + {word};
      }
    }
    assert extra[..|extra|] == extra;
    r := ReservedAliases(full, relaxed);
  }

  /** The deployment's extra words enter both sets trimmed and lower-cased, blank ones
      not at all. */
  lemma ExtraWords(words: seq<string>, w: string)
    ensures w in Extra(words) <==> w != "" && exists i :: 0 <= i < |words| && Lower(TrimSpace(words[i])) == w
  {
    if w in Extra(words) {
      var word :| word in words && Lower(TrimSpace(word)) == w;
      var i :| 0 <= i < |words| && words[i] == word;
    }
  }

  /** Each scope refuses exactly the words of its set, in any case, and the relaxed
      scope nothing that the strict one lets pass. */
  lemma ScopesNested(r: ReservedAliases, word: string, other: string)
    requires Nested(r) && EqualFold(word, other)
    ensures IsReserved(r, word, false) <==> Lower(other) in r.full
    ensures IsReserved(r, word, true) <==> Lower(other) in r.functional
    ensures IsReserved(r, word, true) ==> IsReserved(r, other, false)
  {
  }
}
