# Verified model of ogtr's backend

ogtr is a multi-tenant link shortener. Its backend is a set of services over a
few shared SQL tables, plus a handful of in-memory algorithms. This project
models that logic in Dafny and proves what the services promise together: that
the namespace of short codes, brand prefixes and hostnames never becomes
ambiguous, that a displayed short URL leads back to its link, that limiters
forget nothing that matters, that sessions never carry a membership nobody
holds, and so on. `dafny verify dfyconfig.toml` checks all of it.

## How it is built

Where the source changes rows or fields in place, the model has a class whose
methods change fields (`RateLimit.SlidingWindow`, `Throttle.GuessThrottle`,
`KeyCache.JwksCache`, `Feeds.FeedList`, `Tables.Database` and the services over
it, `Rescan.RescanService`, `Accounts.AccountService`). Each method is proved
equal to a step function of the old state, and the theorems are lemmas about
runs of those steps. Pure Go code is functions; Go loops are loops with
invariants.

| file | contents |
|---|---|
| Common | options, service errors, the ASCII string functions of Go that are used |
| RateLimit, Throttle | the two in-memory limiters against an unpruned history |
| Lookups | which requests the throttle counts, and who is refused, over runs of the resolver |
| Retention | the limiters' stores never hold anything older than two windows |
| Flights, Schedules | the throttle under overlapping lookups: miss bounds, and exactly when it is exact |
| Tables | rows, SQL statements and transactions as functions, the store class |
| Services | configuration, and calls as reads followed by one statement |
| Urls, Hosts | URL texts, routes, Host headers, registered hostnames |
| Reserved, RandomCode, Slug, LikePattern | self-contained algorithms |
| Links, Prefixes, Domains | the services that claim names |
| Namespace | runs of atomic calls and the namespace invariant |
| Outcomes | when the management calls succeed, and what they leave on the rows |
| Authority | which call is behind each change, and whose links a caller is shown |
| Interleaving | statements that run at any time after the reads they were based on |
| Races | what does need atomic calls, with reachable states that show it |
| Resolver, Display, Isolation, Clicks | resolution, and what it has to do with the rest |
| Availability | when a link is reached and served, where the visitor goes, and what is recorded |
| Traffic | click conservation when requests overlap |
| Rescan | the re-scan cursor walk |
| Sessions, SessionSafety, Accounts | orgs, memberships, invites and session tokens |
| SessionAnswers | when the session and org calls succeed, and which token they answer |
| SessionCauses | which call is behind each change of a membership or an invite |
| SessionRaces | memberships and invites when a write runs late |
| Feeds, KeyCache | blocklists with last-good data, the JWK Set cache |

## Assumptions

- Every call and event takes its clock reading as an integer argument. The clock
  never runs backwards within a process.
- Network, DNS, scanner, policy, randomness and failing writes are arguments with
  arbitrary values: results hold for all of them. Within one call, a policy
  answers the same question about the same org the same way.
- Text compares by ASCII case folding. Codes, prefixes and stored hostnames are
  ASCII by their own formats; e-mail addresses and rule values are folded the same
  way. IDNA, `net.ParseIP`, the explicit-word filter, UTM tagging, query escaping,
  GeoIP and rune lower-casing are function parameters.
- The deployment is well configured: the short URL scheme is http or https, and
  the short domain can stand in a URL as it is.
- `Namespace` takes each service call as one atomic step. `Interleaving` drops
  this, letting any statement be issued at any time, and keeps what rests on single
  statements, transactions and unique keys. `Races` shows that the cap of 20 and the
  separation of codes from prefixes do need atomic calls, from reachable states.
- The throttle is taken at the grain of its critical sections: asking and recording
  a miss are separate steps that interleave freely, for one client and for many.
  `Resolver` itself runs one request after the other; `Traffic` lets the writes of
  overlapping requests run in any order.

## Where the code differs from its documentation

- `backend/auth/jwks.go` says that the key set is fetched no more often than the
  cooldown. Failed fetches do not start the cooldown: n lookups at one instant with
  the endpoint down make n requests (`FailuresHammer`), and a request keeps its
  distance to all earlier ones iff it keeps it to the failed ones
  (`ApartIffFailuresApart`, `RunApartIff`).
- Whether a URL is flagged does not depend on Go's map order, but the reported
  category does, unless all feeds that list the URL have one category
  (`OrderFreeIff`).
- A displayed short URL comes back from `shorten` as the same link when it is
  displayed on the short domain. One on a custom domain is a destination like any
  other and comes back only by dedupe (`PrintThenShorten`).
- Dedupe compares `destination_url` in the server's case-insensitive default
  collation, so a destination that differs from an earlier link's only in the case
  of its path is answered with that link (`DedupeIgnoresCase`, `DedupeMergesPaths`).
  Dedupe answers as one on exact destinations would iff the first visible link that
  matches up to case matches exactly (`DedupeExactIff`).
- A link whose rules cannot all be stored exists all the same, with the rules stored
  so far, although the call answers an error (`Links.LinkService.Shorten`).
- An org and its owner's membership are two inserts without a transaction, so an
  org is ownerless exactly when the second one failed (`CreatedOwnedIff`), and
  stays so (`OwnersSettled` in `CallFollows`). Nothing else makes an owner, so that
  no org ever has two and no owner is ever removed (`OwnersStay`).
- The guess throttle deletes a client's misses when its block ends. Lookups that were
  let in before a block and miss during it make this forget misses that are still in
  the window. Question by question this is exactly what breaks the full history's
  answers (`ExactIffRemembered`); for a client with one lookup at a time it never
  happens iff the cooldown covers the window (`ExactIffCooling`), as it does in the
  wiring of `backend/app/app.go`; with such a cooldown it can happen iff two lookups
  of a client overlap (`ExactIffOneAtATime`).
- "More than 60 unknown codes a minute" is a bound for one lookup at a time only
  (`PromiseIffOneAtATime`). With n lookups of a client in flight, b is a bound on the
  misses in a window iff b is at least limit + n + min(n - 1, limit) (`WithinIff`).
- One pending invite per org and e-mail rests on a read before the insert. An insert
  that runs late keeps it iff no such invite is pending when it runs (`LateInviteIff`),
  and of two overlapping invitations the last one breaks it (`InvitesNeedAtomicity`).
- The status of an invite is overwritten without looking at it. A late write leaves
  settled invites alone iff it finds its invite pending, or as it would write it
  (`LateStatusIff`); an acceptance and a revocation that overlap undo each other
  (`StatusesNeedAtomicity`).
- `normalizeHostname` checks for an IP address before the IDNA mapping, so a text that
  the mapping turns into 127.0.0.1 is stored (`LoopbackStoredIff` says exactly which);
  a link shown there is still reached, but entered as ROOT (`StoredHostIsForeign`,
  `DomainEntered`).
- Intervals of the limiters are half-open: an event exactly one window old no
  longer counts.

## Model

| member | source | states |
|---|---|---|
| RateLimit.SlidingWindow.Allow | backend/ratelimit/ratelimit.go:45-67 | the method is one step of the runs that SlidingWindowExact compares with the full log: same answer, same hits and lastSweep |
| RateLimit.SlidingWindow.Sweep | backend/ratelimit/ratelimit.go:71-86 | at most once per window, every slice is pruned and emptied keys are dropped |
| RateLimit.PruneBefore | backend/ratelimit/ratelimit.go:187-194 | the loop drops exactly the leading times at or before the cutoff |
| RateLimit.PruneCounts | backend/ratelimit/ratelimit.go:187-194 | on a sorted slice, what pruning keeps is the number of times inside the window |
| RateLimit.SlidingWindowExact | backend/ratelimit/ratelimit.go:45-86 | over every run of calls with a non-decreasing clock, each answer is the one a limiter with the complete, unpruned log would give: allowed iff fewer than limit allowed events of that key lie in the last window |
| RateLimit.LogRunWithinLimit | backend/ratelimit/ratelimit.go:16-31 | after every run, every interval of one window's length holds at most limit allowed events of each key |
| Throttle.GuessThrottle.Blocked | backend/ratelimit/ratelimit.go:117-138 | the asking step of the schedules below: same answer, same deletions |
| Throttle.GuessThrottle.RecordMiss | backend/ratelimit/ratelimit.go:142-159 | the recording step of the schedules below: sweep, prune, append, and block when above the limit |
| Throttle.GuessThrottle.Sweep | backend/ratelimit/ratelimit.go:162-183 | prunes every key and drops exactly the expired blocks |
| Throttle.AnswersSinceLift | backend/ratelimit/ratelimit.go:117-183 | for every schedule of asks and misses of any number of clients and overlapping lookups, each answer is that of the complete miss history since the client's last lifted block, whatever was swept and pruned |
| Throttle.ThrottleExact | backend/ratelimit/ratelimit.go:117-183 | over every schedule in which no lifted block drops a miss that is still in the window, each answer is that of the complete history: blocked iff a miss no older than the cooldown was above the limit within its own window |
| Throttle.ExactIffRemembered | backend/ratelimit/ratelimit.go:126-133 | exact condition, checkable before the call: after a question, all further answers can be trusted to be those of the complete history iff the question did not lift a block over a miss still in the window |
| Throttle.DriveIsSteps | backend/services/resolve.go:206-232 | a lookup that nothing interrupts is its asking and its recording step in a row |
| Lookups.VisitCounts | backend/services/resolve.go:206-235 | a blocked visit changes nothing and leaves the throttle as the question did; a let-in visit that reaches a link records no miss; a let-in visit that reaches none records exactly one, at its later clock reading, and is answered 404 |
| Lookups.PeekCounts | backend/services/resolve.go:285-301 | the same for previews |
| Lookups.RunMisses | backend/services/resolve.go:202-205 | over every run of calls, visits and previews, the misses the throttle has recorded of a client are exactly the times of its let-in requests that reached no link |
| Lookups.RefusedIff | backend/services/resolve.go:202-232 | from an empty throttle, over every such run, a client's next request is answered 429 iff one of those misses, none older than the cooldown, was above the limit within its own window |
| Lookups.HonestNeverRefused | backend/services/resolve.go:202-205 | a client that has only asked for links it reached is never answered 429 |
| Lookups.GuesserRefused | backend/services/resolve.go:202-232 | once more than limit of its requests in one window reached nothing, a client's next request is answered 429, whatever it asks for, until the cooldown is over |
| Retention.WindowForgetsOld | backend/ratelimit/ratelimit.go:69-86 | after every named call of every run the limiter stores, of each key it stores, at least one event, in order, and none that is two windows old |
| Retention.ThrottleForgetsOld | backend/ratelimit/ratelimit.go:160-183 | after every recorded miss of every schedule the throttle stores no miss that is two windows old and no block that has been over for a window |
| Schedules.ExactIffCooling | backend/ratelimit/ratelimit.go:117-138 | a throttle with a positive limit is exact in all schedules with one lookup per client in flight, clients interleaving freely, iff its cooldown covers its window |
| Schedules.ExactIffOneAtATime | backend/services/resolve.go:206-232 | with a cooldown that covers the window, it is exact in all schedules with at most n lookups of a client in flight iff n is 1 |
| Flights.MissesBounded | backend/services/resolve.go:206-232 | over every schedule, while a client has at most n lookups in flight, no interval of one window's length holds more than limit + n + min(n - 1, limit) of its misses |
| Schedules.WithinIff | backend/services/resolve.go:206-232 | the best bound, for every n: all schedules with at most n lookups of a client in flight keep every window within b iff b is at least limit + n + min(n - 1, limit) |
| Schedules.PromiseIffOneAtATime | backend/app/app.go:38-42 | the promise of limit + 1 misses in a window holds in all schedules with at most n lookups in flight iff n is 1 |
| Schedules.BoundAttained | backend/services/resolve.go:206-232 | for every n a schedule is given that leaves exactly limit + n + min(n - 1, limit) misses in one window |
| Schedules.AtOnce | backend/services/resolve.go:206-208 | n lookups let in at once leave n misses at once, however small the limit |
| Flights.ForgetsAtMost | backend/ratelimit/ratelimit.go:126-133 | a lifted block drops at most min(n - 1, limit) misses that are still in the window |
| Flights.WiredMissesBounded | backend/app/app.go:38-42 | with the wired constants that is 61 misses a minute for one lookup at a time, 59 + 2n for up to 61 at a time, and 120 + n for more |
| LikePattern.PatternExact | backend/stores/admin.go:89-96 | for every term and string, the string matches the pattern under LIKE iff the term occurs in it literally |
| LikePattern.EscapedMatchesPrefix | backend/stores/admin.go:89-96 | an escaped term followed by % matches exactly the strings that begin with the term |
| RandomCode.RandomCode | backend/services/link.go:783-802 | wherever the buffers end, the code is the first n accepted bytes of the stream mapped into the alphabet; it fails iff the stream holds fewer |
| RandomCode.Unbiased | backend/services/link.go:783-802 | each symbol comes from exactly four accepted byte values and no two symbols share one |
| RandomCode.AcceptedConcat | backend/services/link.go:783-802 | each byte counts for itself, in order: below 248 it is the symbol at its remainder, else nothing |
| RandomCode.AcceptedIsBase62 | backend/services/link.go:783-802 | generated codes are letters and digits |
| Slug.Slugify | backend/services/org.go:303-333 | the builder loop, trims and cut compute the hyphen-joined maximal alphanumeric runs, cut to 80 and trimmed, or "org" |
| Slug.SlugWellFormed | backend/services/org.go:301-333 | a slug is never empty or over 80 long, and has only kept characters, no edge hyphen and no double hyphen |
| Slug.SlugIdempotent | backend/services/org.go:303-333 | slugify of a slug is that slug |
| Slug.SlugKeepsLetters | backend/services/org.go:303-333 | a slug has the letters and digits of the lowered name in their order, all of them for a name of up to 80 characters, is cut no shorter than 79 characters when there are more than 80 of them, and is "org" when there is none |
| Slug.FormIsFixed | backend/services/org.go:303-333 | every text of a slug's form is its own slug |
| Slug.UniqueSlug | backend/services/org.go:279-299 | answers the first free candidate of fifty, or a conflict iff all are taken |
| Slug.CandidatesDiffer | backend/services/org.go:279-299 | the candidates are the slug, then the slug with the decimal texts of 2, 3 and so on, no two the same |
| Reserved.NewReservedAliases | backend/services/reserved.go:74-98 | the two word sets are exactly the built-in categories plus the folded extra words, and the relaxed one is contained in the strict one |
| Reserved.ExtraWords | backend/services/reserved.go:74-98 | the extra words that count are the configured ones, trimmed and lower-cased, that are not blank |
| Reserved.ScopesNested | backend/services/reserved.go:104-116 | a word is reserved in the strict scope iff its lower-case form is in the full set and in the relaxed one iff it is in the functional set, so that in every spelling the relaxed scope refuses nothing the strict one lets pass |
| Hosts.NormalizedIsValid | backend/services/domain.go:301-353 | every accepted hostname is a dotted sequence of DNS labels, and neither the short domain nor a subdomain of it |
| Hosts.HostnameStoredIff | backend/services/domain.go:301-353 | which texts are accepted and what is stored: the trimmed, lower-cased text without its final dot holds none of the refused characters and is no IP address, and its IDNA mapping has a dot, at most 253 characters, only labels, and is not the deployment's |
| Hosts.LabelsIff | backend/services/domain.go:301-353 | a name passes the label check iff each of its dot-free parts is 1 to 63 lower-case letters, digits and inner hyphens |
| Hosts.HostnameNormal | backend/services/domain.go:366-374 | stored hostnames are fixed points of the Host-header normalization |
| Hosts.HeaderForms | backend/services/domain.go:366-374 | a Host header names the same host in any case, with and without a port, with and without the final dot |
| Hosts.OwnHosts | backend/services/domain.go:376-386 | the short domain, localhost and 127.0.0.1, in any case and at any port, are the deployment's own |
| Hosts.StoredHostIsForeign | backend/services/domain.go:381-386 | a stored hostname is taken for the deployment's own host iff it is the literal 127.0.0.1 |
| Hosts.LoopbackStoredIff | backend/services/domain.go:301-353 | exactly which registrations store such a hostname: bare texts that are no IP address and that the IDNA mapping turns into that literal |
| Urls.PrintRoutes | backend/app/app.go:259-268 | the router reads the prefix and code of a printed path back |
| Urls.RoutedIff | backend/app/app.go:259-268 | a path is read as a prefix and a code iff they are well-formed and it is the path that prints them |
| Urls.PrintNormalizes | backend/services/link.go:829-855 | a printed short URL passes normalizeURL with its scheme, host and path intact |
| Urls.NormalizedUrl | backend/services/link.go:829-855 | only http and https URLs with a host are accepted, as they are but for surrounding space, or with https:// in front of a text without a scheme |
| Urls.SchemelessIsHttps | backend/services/link.go:829-855 | a host and path without a scheme are accepted as the https URL of that host and path |
| Urls.UserInfoDropped | backend/services/link.go:829-855 | user info in front of a host is no part of the host |
| Tables.Database.Run | backend/stores/brand_prefix.go:44-77 | every statement or transaction leaves exactly the tables its WHERE condition and keys allow, and keeps the keys |
| Tables.ExecPrefixKeys | backend/stores/brand_prefix.go:174-223 | every prefix statement keeps: values unique up to case, a primary prefix is approved, at most one primary per org |
| Tables.ExecDomainKeys | backend/stores/domain.go:124-184 | the same for domains: hostnames unique, primary implies verified, one primary per org |
| Tables.ExecLinkKeys | backend/migrations/20260713221852_initial_schema.go:110 | link inserts, renames and the rest keep codes unique up to case |
| Outcomes.OtherOrgsUntouched | backend/stores/brand_prefix.go:174-223 | whenever it runs, a statement that names an org leaves the links, prefixes and domains of all other orgs alone |
| Links.UniqueCodeIsFirst | backend/services/link.go:741-779 | the first of five draws that is not reserved, not a held prefix and not taken is used; it fails iff there is none |
| Outcomes.AcceptableIsFree | backend/services/link.go:741-779 | a draw is acceptable iff it is, in no case, a word of the full reserved set, a held prefix or a code |
| Outcomes.DrawnIsFirstFree | backend/services/link.go:741-779 | the code used is the first such draw of the first five |
| Links.LinkService.GenerateCode | backend/services/link.go:741-779 | the retry loop computes that |
| Links.LinkService.ValidateAlias | backend/services/link.go:863-901 | the method decides as AliasDecided says: the format, filter, reserved-scope and held-prefix checks in order |
| Outcomes.AliasDecided | backend/services/link.go:863-901 | an alias is 422 iff it is misshapen, explicit, or in some case a reserved word: of the functional set for an org known to have a verified domain, of the full set for every other org and when the lookup fails; else 409 iff it is a held prefix; else it passes |
| Links.LinkService.Shorten | backend/services/link.go:156-293 | the method carries out the plan that NamespaceSafe, OnlyVisibleShown and PrintThenShorten are about: same answer, same tables, a failing rule insert included |
| Outcomes.CreatedIff | backend/services/link.go:156-293 | shortening makes a link iff the kind is allowed, the URL is accepted and outside the short domain, the policy allows, the scanner passes, schedule and rules are valid, and either the alias is allowed and free, or without one no visible link has the destination and one of five draws is free |
| Outcomes.CreatedAsAsked | backend/services/link.go:156-293 | the one row it adds has the org, creator, kind, tagged destination, tags, deep link, rules and schedule asked for and the alias as its code, and is active and unvisited; the answer is its id, or an error when the insert of a rule fails, with the rules before that one stored |
| Links.LinkService.ExistingShortURL | backend/services/link.go:355-390 | the method answers what ExistingFound proves of the echo path: the link a short-domain URL names, if it is the org's and visible, behind its own approved prefix |
| Outcomes.EchoedIff | backend/services/link.go:355-390 | a path is echoed as a link iff it is the link's code, alone or behind an approved prefix of the org, and the link is the org's and visible; any other path is 422 |
| Links.LinkService.SetAlias | backend/services/link.go:434-467 | the method carries out the rename that CallInv proves safe: same answer, same tables |
| Outcomes.RenamedIff | backend/services/link.go:434-467 | a rename succeeds iff the alias is allowed and no held prefix, the link the org's and visible, and the alias free or already its very code; it changes that code only, and a failing one nothing |
| Links.LinkService.Display | backend/services/link.go:688-731 | the method prints the URL that DisplayedResolves follows back, whichever lookups fail |
| Outcomes.ShownOn | backend/services/link.go:703-731 | links are shown over https on the org's primary verified domain, else on the short domain behind its primary approved prefix, else on the short domain; a failing lookup counts as none |
| Prefixes.PrefixService.Create | backend/services/brand_prefix.go:88-155 | the method carries out the request that CallInv proves safe atomically and CapNeedsAtomicity unsafe interleaved |
| Outcomes.PrefixRequestedIff | backend/services/brand_prefix.go:88-155 | a request succeeds iff an owner makes it, it is valid, the word in no case one of the full reserved set, not explicit, the org below 20 and the name free among codes and held prefixes; the new row is pending, or approved under auto-approval, and not primary, and no held row changes |
| Prefixes.PrefixService.SetPrimary | backend/services/brand_prefix.go:164-191 | the method carries out the transactional swap behind OnePrimaryUnderInterleaving |
| Outcomes.PrefixChosenIff | backend/services/brand_prefix.go:164-191 | only an owner's choice of an own approved prefix succeeds; then that row is primary, no other row of the org is, and nothing else has changed |
| Prefixes.PrefixService.Delete | backend/services/brand_prefix.go:195-221 | the method carries out the conditional deletion; with RevokedStaysHeld, a revoked prefix is out of its org's reach |
| Prefixes.PrefixService.Decide | backend/services/admin_prefix.go:110-151 | the method carries out the status-conditional write that StmtLife confines to the lifecycle |
| Outcomes.DecidedIff | backend/services/admin_prefix.go:110-151 | an approval approves and a rejection rejects a pending prefix, a revocation revokes an approved one, given a reason where one is due; anything else is refused and changes nothing |
| Prefixes.PrefixService.Release | backend/services/admin_prefix.go:86-104 | the method carries out the only write that ends RevokedStaysHeld |
| Outcomes.PrefixGoneIff | backend/services/brand_prefix.go:195-221 | an owner deletes an own prefix iff it is not revoked, and a release removes one iff it is |
| Domains.DomainService.Create | backend/services/domain.go:71-112 | the method carries out the registration whose hostname NormalizedIsValid describes |
| Outcomes.DomainRegisteredIff | backend/services/domain.go:71-112 | a registration succeeds iff an owner makes it, the hostname is accepted and unused in any case, the policy allows and a token is drawn; the new row is unverified, not primary and has that token |
| Domains.DomainService.Verify | backend/services/domain.go:138-200 | the method carries out the check that VerificationHasProof and ProofVerifies are about, for every TXT answer |
| Authority.ProofVerifies | backend/services/domain.go:138-200 | the converse of VerificationHasProof: an owner's check of an own unverified domain outside the deployment verifies it if some TXT value, trimmed, is its token, and is otherwise a conflict that changes nothing |
| Domains.DomainService.SetPrimary | backend/services/domain.go:205-234 | the method carries out the swap that ExecDomainKeys confines to one primary |
| Outcomes.DomainChosenIff | backend/services/domain.go:205-234 | only an owner's choice of an own verified domain succeeds; then that row is primary, no other row of the org is, and nothing else has changed |
| Domains.DomainService.Delete | backend/services/domain.go:239-256 | the method deletes an own domain or answers not found, nothing else |
| Namespace.PlanChecked | backend/services/brand_prefix.go:103-137 | whatever statement a call decides on, its value has the right form, is not reserved in its scope, and is free among codes and held prefixes |
| Namespace.CallInv | backend/services/brand_prefix.go:103-137 | every atomic service call keeps the namespace invariant |
| Namespace.NamespaceSafe | backend/services/link.go:863-901 | in every state reachable by service calls: codes and prefixes are each unique up to case, no code equals a held prefix, no prefix is in any spelling a word of the full reserved set, no code one of the functional set, no org holds more than 20 prefixes |
| Authority.PlanSanctioned | backend/services/domain.go:138-174 | every statement a call decides on is one its caller is entitled to: own org, own visible link, owner, free name, proof shown |
| Authority.LinksHaveCause | backend/services/link.go:156-293 | for every call and link: a new link comes from an allowed, unflagged shortening in the caller's org and name under a free code; an existing one is never removed, keeps org, creator, kind and counters, and is renamed only by a viewer of its org who may see it |
| Authority.OnlyVisibleShown | backend/services/link.go:804-813 | whatever is submitted, shortening answers only a link of the caller's org, and a PRIVATE one only to its creator, through creation, dedupe and echo alike |
| Authority.HiddenFromDedupe | backend/stores/link.go:81-91 | removing a link the viewer may not see changes no dedupe answer |
| Authority.DedupeIgnoresCase | backend/stores/link.go:81-91 | destinations that differ only in case have the same dedupe answer |
| Authority.DedupeExactIff | backend/stores/link.go:81-91 | exact condition: dedupe answers as one on exact destinations would iff the first visible link that matches up to case, if there is one, matches exactly |
| Authority.DedupeMergesPaths | backend/stores/link.go:81-91 | an input on which it does not: a link to /A is answered for /a |
| Authority.ApprovalHasCause | backend/services/admin_prefix.go:110-151 | a prefix becomes approved only by the operator's approval of a pending request, or by an owner's request under auto-approval |
| Authority.VerificationHasProof | backend/services/domain.go:138-200 | a domain becomes verified only when an owner of its org checks it while it is unverified and some value of the TXT answer, trimmed, is its token, and never for the deployment's host or a subdomain |
| Interleaving.OnePrimaryUnderInterleaving | backend/stores/brand_prefix.go:174-204 | whatever statements are issued and run in whatever order, a primary prefix is approved and each org has at most one |
| Interleaving.StmtLife | backend/stores/admin.go:432-471 | a statement moves a prefix only PENDING to APPROVED or REJECTED and APPROVED to REVOKED, clearing primary, and removes it only by its org (not when revoked), by release (revoked) or by a new request of its value (rejected) |
| Interleaving.ScheduleLife | backend/stores/brand_prefix.go:44-77 | over every schedule a surviving prefix row keeps org and value and its status only moved along the lifecycle |
| Interleaving.RevokedStaysHeld | backend/stores/brand_prefix.go:206-223 | whatever is in flight, a revoked prefix stays revoked and held until someone releases it |
| Interleaving.RevokedUnclaimable | backend/stores/brand_prefix.go:44-77 | and meanwhile inserting its value, in any spelling and by any org, is refused and changes nothing |
| Races.CapNeedsAtomicity | backend/services/brand_prefix.go:107-125 | two interleaved requests at 19 held prefixes end above the cap of 20 |
| Races.CapRaceReachable | backend/services/brand_prefix.go:107-125 | such a state is reached from an empty deployment under every configuration that allows the names used |
| Races.SeparationNeedsAtomicity | backend/services/link.go:434-467 | an interleaved rename and prefix request of the same value leave a code that equals a held prefix |
| Races.SeparationRaceReachable | backend/services/link.go:434-467 | such a state is reached from an empty deployment too |
| Resolver.ResolveService.Visit | backend/services/resolve.go:128-200 | the method is the resolution that ServedIffOpen, RefusedIff, DisplayedResolves, ClicksConserved and ScopedRequestsIsolated are about: same answer, tables and throttle |
| Availability.ServedIffOpen | backend/services/resolve.go:134-153 | a let-in visit that reaches a link is served iff its row is active, its start is past or unset and its end is not reached or unset; disabled is 410, not yet active 404, expired 410, and those change nothing |
| Availability.RecordedRows | backend/services/resolve.go:171-197 | a served visit adds one visit at its time to the link's row and one click row, each unless its write fails, and nothing else |
| Availability.ClickSays | backend/services/resolve.go:175-194 | the click row has the link, its org, the visitor, tag, city, tags and flags, and the way the visitor came in |
| Availability.TargetOrder | backend/services/resolve.go:159-169 | the URL of the first matching rule overrides the platform's deep link, which overrides the destination, tagged only when the link has no tags; each flag is set iff its source applied |
| Availability.TagsFromReferrer | backend/services/resolve.go:404-444 | the automatic source is the platform the referrer's host mentions, else that host, else the deployment's own name |
| Availability.DisabledStays | backend/services/resolve.go:134-140 | over every run of calls, visits and previews that does not set its status, a disabled link stays disabled and no visit to it is served or recorded |
| Resolver.ResolveService.Find | backend/services/resolve.go:206-235 | the method is the lookup of VisitCounts and ReachedIff: same answer, same throttle |
| Resolver.ResolveService.Classify | backend/services/resolve.go:242-270 | the method computes the scope that DisplayedReaches and ReachedTransfers are about |
| Availability.ReachedIff | backend/services/resolve.go:206-270 | in every state of the namespace invariant: a request reaches a link iff it asks for its code, in any case, and comes in on the deployment's host, under an approved prefix of the link's org there, or without a prefix on a verified domain of that org |
| Availability.EntryWay | backend/services/resolve.go:242-270 | the entry point is PREFIX iff a prefix was given, else ROOT on the deployment's host and DOMAIN elsewhere |
| Resolver.ResolveService.PreviewByCode | backend/services/resolve.go:290-301 | the method is the preview of ScopedPreviewsIsolated; the tables are left alone |
| Availability.PreviewShows | backend/services/resolve.go:285-301 | a let-in preview shows a reached link's code and destination whatever its schedule, flagged iff it is disabled |
| Resolver.ResolveService.ConditionMatches | backend/services/resolve.go:386-402 | the flag loop decides whether some value equals up to case, negated for NOT |
| Resolver.ResolveService.RuleApplies | backend/services/resolve.go:372-382 | a rule matches iff it has a condition and every one it has holds; an unknown city fails a location condition |
| Availability.RuleMeaning | backend/services/resolve.go:367-402 | a condition holds iff a value is listed up to case, or iff none is under NOT; a rule needs all its conditions, never matches without one, and never on a location while the city is unknown, NOT or no NOT |
| Resolver.FirstMatchWins | backend/services/resolve.go:350-365 | the first matching rule in order gives the URL, and there is none iff no rule matches |
| Display.DisplayedReaches | backend/services/link.go:688-731 | in every state of the invariant, requesting the displayed URL of a link reaches exactly that link, whichever display lookups failed |
| Display.DisplayedResolves | backend/services/resolve.go:128-200 | after every run of calls, visits and previews, an unblocked client requesting the displayed URL of an active, in-window link is sent to that link |
| Display.DomainEntered | backend/services/resolve.go:310-325 | a displayed custom domain is entered as DOMAIN, save 127.0.0.1 |
| Display.PrintThenShorten | backend/services/link.go:176-178 | for every outside answer: shortening the displayed URL of a visible link answers that link and writes nothing iff it was displayed on the short domain, or the call is allowed, valid and without alias and dedupe finds that link |
| Isolation.ReachedTransfers | backend/services/resolve.go:242-270 | through an org's domain or prefix, other orgs' codes and unknown codes are indistinguishable |
| Isolation.ScopedRequestsIsolated | backend/services/resolve.go:206-270 | non-interference: in two states that agree on an org's rows such a request gives the same answer, the same clicks and the same throttle state, and the states still agree |
| Isolation.ScopedPreviewsIsolated | backend/services/resolve.go:290-301 | the same for previews |
| Isolation.ScopedRequestsStayHome | backend/services/resolve.go:128-200 | such a request changes no row of another org and records clicks of its own org only |
| Clicks.ClicksConserved | backend/services/resolve.go:128-200 | over every run of calls, visits and previews, a link's counter grows by exactly the resolutions whose counter write succeeded and its click rows by those whose click write did |
| Clicks.VisitsAreClicks | backend/stores/link.go:264-270 | with no failing write, visits, click rows and successful resolutions of every link are the same number, and every PREFIX click's prefix is of its link's org |
| Traffic.TrafficConserved | backend/services/resolve.go:164-197 | the same when requests overlap: over every interleaving of arrivals, service statements and late writes, a link's counter and click rows, with the writes in flight, grow by exactly the resolutions whose write does not fail, and every click row stays sound |
| Traffic.QuietAgrees | backend/services/resolve.go:164-197 | from the empty deployment, with no failing write and nothing in flight, visits, click rows and resolutions of every link are the same number, however requests overlapped |
| Traffic.UninterruptedIsServed | backend/services/resolve.go:164-197 | a resolution that nothing interrupts leaves what its two writes leave in a row |
| Clicks.PrefixReachesOwn | backend/services/resolve.go:242-270 | a resolution through a prefix reaches a link of that approved prefix's org |
| Clicks.FailureRecordsNothing | backend/services/resolve.go:128-153 | whatever is not answered with a redirect, and every preview, changes no table; ServedIffOpen says which visits those are |
| Clicks.CallCounts | backend/stores/link.go:150-155 | no service call changes a counter or a click row |
| Rescan.MatchingExact | backend/stores/link.go:237-262 | the queue is exactly the matching ids, each once, in increasing order |
| Rescan.RescanService.ListActiveClickedSince | backend/stores/link.go:237-262 | a page is the first matching ids after the cursor |
| Rescan.RescanService.DisableIfFlagged | backend/services/rescan.go:90-112 | disables iff flagged and written, and touches nothing else |
| Rescan.RescanService.Run | backend/services/rescan.go:49-86 | the run ends; it scans exactly the first matching links of the starting table up to the cap (a prefix of them when a listing fails), although its writes shrink the query, and counts what it disabled |
| Rescan.RunEnds | backend/services/rescan.go:45-112 | the queue is the active links last visited at the cutoff or later; a run takes the first 10000 of them in id order, and a link ends disabled iff it was, or it was taken and flagged and its write succeeded; nothing is re-enabled and nothing else changes |
| Availability.FlaggedIsGone | backend/services/rescan.go:45-112 | after a completed run, a link that was active and clicked since the cutoff, within the first 10000, flagged and written, is answered 410 to everyone who reaches it, and nothing is recorded |
| Sessions.ListingInOrder | backend/stores/member.go:65-90 | a user's listing has each org of the user's memberships once, in join order, then id order |
| Sessions.PendingFor | backend/stores/invite.go:78-89 | exactly the email's pending invites, oldest first |
| Accounts.AccountService.AcceptPendingInvites | backend/services/auth.go:176-211 | the loop leaves the tables and reports the orgs of the round that AcceptAllExtends, RoundSettles and AcceptTwice are about, breaking off at a failing policy check, membership insert or invite update |
| Accounts.AccountService.JoinAsMember | backend/services/auth.go:146-169 | a denial joins nobody and is no error; other failures are |
| Accounts.AccountService.AutoJoinByDomain | backend/services/auth.go:217-239 | joins the first matching org as a plain member iff the policy allows and the insert succeeds |
| Accounts.AccountService.Login | backend/services/auth.go:67-127 | the method is the login of LoginLands, TokensJustified and CallFollows, user creation included: same answer, same tables |
| SessionAnswers.LoginLands | backend/services/auth.go:67-127 | a login lands in the org joined last by invite; if none was, in the user's earliest org; if there is none, in the first org by id that takes in the email's domain, if the policy allows; and its token is org-less iff the user ends in no org |
| SessionAnswers.LoginGoesThroughIff | backend/services/auth.go:67-127 | a login of an email succeeds iff its round of invites completes and joining by domain, where it is tried, does not fail; a denial is no failure |
| SessionAnswers.ProvisionedUser | backend/services/auth.go:67-127 | the user is the one row with the email, up to case, or a new enabled one |
| SessionAnswers.SplitIff | backend/services/auth.go:345-354 | a text is an email iff it is a non-empty local part, an @ and a non-empty domain without one |
| Accounts.AccountService.BuildAuthResult | backend/services/auth.go:244-269 | the token is scoped to the org last joined, else the first one listed, with the role held there |
| Accounts.AccountService.Refresh | backend/services/auth.go:275-318 | the method is the refresh of RefreshKeepsOrg, TokensJustified and CallFollows, for arbitrary claims |
| SessionAnswers.RefreshKeepsOrg | backend/services/auth.go:275-318 | a missing or disabled user is 401 and nothing changes; otherwise the token is for the session's org with the role held there if the user is a member of it, else for the org joined last by this round, as a member, and org-less only if there is neither |
| Accounts.AccountService.SwitchOrg | backend/services/auth.go:358-369 | a token for the org iff the user is a member |
| SessionAnswers.SwitchIff | backend/services/auth.go:358-369 | switching succeeds exactly into an org of the user's, with the role held there |
| Accounts.AccountService.CreateOrg | backend/services/org.go:46-78 | the method is the creation of CreatedOwnedIff, and the slug it stores was free |
| SessionAnswers.OrgCreated | backend/services/org.go:46-78 | a creation succeeds iff the name is not blank, the domain valid, the policy allows, the slug found is free, and the user exists and is added; the new org has them and its creator as owner |
| SessionAnswers.UpdatedIff | backend/services/org.go:95-126 | only an owner's update with a name that is not blank and a valid domain succeeds; it changes what was given of that org and nothing else |
| SessionAnswers.DomainStored | backend/services/org.go:335-348 | a domain is stored trimmed and lower-cased, blank means none, and a text without a dot or with @, /, space or tab is refused |
| Accounts.AccountService.RemoveMember | backend/services/org.go:136-162 | the method is the removal of RunKeeps, which never takes an org's last owner |
| SessionAnswers.RemovedIff | backend/services/org.go:136-162 | a removal succeeds iff an owner asks, the target is a member, and another owner remains if it is one; it takes that membership only |
| Accounts.AccountService.CreateInvite | backend/services/org.go:170-233 | the method is the invitation of RunKeeps, which never leaves two pending invites for an org and email |
| SessionAnswers.InvitedIff | backend/services/org.go:170-233 | an invitation succeeds iff an owner sends it to an email of nobody in the org, not invited yet, and the policy allows; it adds one pending invite |
| Accounts.AccountService.RevokeInvite | backend/services/org.go:241-260 | the method is the revocation of RunKeeps: pending invites of an own org only |
| SessionAnswers.RevokedIff | backend/services/org.go:241-260 | a revocation succeeds iff an owner asks for a pending invite of the own org, and changes its status only |
| SessionAnswers.MeAccepts | backend/services/auth.go:320-343 | asking for oneself accepts the pending invites as a login does |
| Accounts.AccountService.ListOrgsForUser | backend/stores/member.go:65-90 | the listing of ListingInOrder |
| SessionSafety.AcceptAllExtends | backend/services/auth.go:176-211 | whatever the policy answers and whichever policy check, membership insert or invite update fails, a round only adds plain memberships that a pending invite of that email asks for, and only accepts invites whose user is a member |
| SessionSafety.JoinedExactly | backend/services/auth.go:171-176 | a completed round reports exactly the orgs the user was not in before |
| SessionAnswers.RoundJoins | backend/services/auth.go:176-211 | a completed round joins exactly the orgs that the user was not in, that a pending invite of the email is for, and that the policy allows |
| SessionAnswers.JoinedInOrder | backend/services/auth.go:176-211 | and reports them in the order of their first pending invites |
| SessionSafety.RoundSettles | backend/services/auth.go:143-145 | a completed round leaves each listed invite accepted, or pending with its org denying and the user outside |
| SessionSafety.DeniedStaysPending | backend/services/auth.go:143-145 | a denied invite stays PENDING and its user is not joined |
| SessionSafety.AcceptTwice | backend/services/auth.go:171-175 | repeating a completed round under the same denials changes nothing and joins no org |
| SessionSafety.FailedUpdateRepairs | backend/services/auth.go:190-205 | after a failing invite update the user is a member and the invite pending; the next round accepts it without joining again |
| SessionSafety.TokensJustified | backend/services/auth.go:244-318 | in every state, every token Login, Refresh or SwitchOrg issues is org-less without a role, or carries an org and role the membership table holds at that moment |
| SessionSafety.LoginLandsInInvited | backend/services/auth.go:241-268 | a login that accepted invites is scoped to the org of the last one |
| SessionSafety.CallFollows | backend/services/org.go:133-162 | every call keeps: references, one pending invite per org and email, one user per email, one org per slug; it adds only memberships with a cause (invite, domain, creation) and changes none, accepts invites only of members, and an org has an owner after it iff it had one before |
| SessionCauses.CallCaused | backend/services/org.go:133-260 | in every state: an invite is accepted only by a session call and revoked only by an owner of its org revoking it; a membership disappears only when an owner of the org removes it, and appears only through a session call or for the creator of an org |
| SessionSafety.RunKeeps | backend/services/org.go:136-260 | over every run of calls, failing writes included, the invariant holds, owned orgs stay owned, and settled invites never change again |
| SessionSafety.CreatedOrgsOwned | backend/services/org.go:41-78 | from the empty deployment, every org whose creation succeeded has an owner at all later times |
| SessionSafety.CreatedOwnedIff | backend/services/org.go:66-77 | a created org has an owner iff its second insert succeeded |
| SessionRaces.OwnersStay | backend/services/org.go:133-162 | over every run no org has two owners, removing an owner is always refused, and every owner stays |
| SessionRaces.StaleRemovalSafe | backend/services/org.go:141-161 | a removal that runs at any time after it was decided neither takes nor gives any org an owner |
| SessionRaces.LateInviteIff | backend/services/org.go:201-213 | exact condition: an invitation decided on one state and inserted in a later one keeps the invariant iff no invite of that org and email is pending when it runs |
| SessionRaces.InvitesNeedAtomicity | backend/services/org.go:201-210 | of two invitations decided on one state, the one inserted last leaves two pending invites |
| SessionRaces.InviteRaceReachable | backend/services/org.go:201-210 | a state in which invitations succeed is reached by one login and one creation |
| SessionRaces.LateStatusIff | backend/stores/invite.go:91-96 | exact condition: a status write that runs late leaves settled invites alone iff it finds its invite pending, or as it would write it |
| SessionRaces.LateStatusOnePending | backend/stores/invite.go:91-96 | whatever status a late write finds, it never makes a second invite of an org and email pending |
| SessionRaces.StatusesNeedAtomicity | backend/stores/invite.go:91-96 | an acceptance that runs after a revocation undoes it, and the other way round |
| SessionRaces.StatusRaceReachable | backend/services/org.go:241-260 | a state in which an owner may revoke an invite that its user's login would accept is reached from an empty deployment |
| Feeds.HostOnList | backend/scanner/feeds.go:199-214 | the label walk ends and finds iff the host or a parent domain is listed |
| Feeds.IsShortener | backend/scanner/syntactic.go:103-116 | the other walk agrees with it on every set without the empty string |
| Feeds.Shorteners | backend/scanner/syntactic.go:40-54 | the shortener set is the built-in hosts and the folded configured ones, and never holds the empty string |
| Feeds.ParseFeed | backend/scanner/feeds.go:122-142 | the loop collects exactly the hosts and the exact forms that the document's lines stand for |
| Feeds.LineStandsFor | backend/scanner/feeds.go:122-142 | a blank line or one starting with # or // stands for nothing, one with a scheme for a URL, any other for a lower-cased host without its final dot, if it looks like one |
| Feeds.FeedList.Refresh | backend/scanner/feeds.go:64-83 | each feed's data is replaced iff its fetch succeeded |
| Feeds.FeedList.Scan | backend/scanner/feeds.go:169-195 | flagged iff the URL parses and some feed lists its exact form, or a dot-boundary suffix of its host |
| Feeds.TargetRead | backend/scanner/feeds.go:169-178 | a scanned URL is compared by its host, lower-cased and without a final dot, and by the exact form of its trimmed text |
| Feeds.CategoryByName | backend/scanner/feeds.go:218-229 | the category is phishing iff the feed's URL mentions phish in any case, malware iff it does not but mentions urlhaus or malware, else abuse |
| Feeds.LastGoodData | backend/scanner/feeds.go:64-83 | after every run of refreshes with any failures, each feed holds its latest successful fetch, and verdicts are those of that data |
| Feeds.FlaggedIffListed | backend/scanner/feeds.go:169-195 | whatever the map order, a URL is flagged iff some feed lists it, with the category of such a feed |
| Feeds.OrderFreeIff | backend/scanner/feeds.go:169-195 | for all feeds: being flagged never depends on the map order, and the verdict does not iff all feeds that list the URL have one category |
| Feeds.PrintedIsFlagged | backend/scanner/feeds.go:122-195 | end to end: a URL on a line of a feed's latest fetched document is flagged, whatever else was fetched or failed |
| Feeds.PrintedHostIsFlagged | backend/scanner/feeds.go:122-214 | end to end: so is every URL on a host of such a document or below it |
| KeyCache.JwksCache.Lookup | backend/auth/jwks.go:61-82 | the method is one step of the runs of FetchesSpaced: same answer, same cache |
| KeyCache.JwksCache.Fetch | backend/auth/jwks.go:96-135 | the key set of a response replaces the cache as a whole, or the fetch fails and changes nothing |
| KeyCache.KeysOfRsaEntries | backend/auth/jwks.go:96-135 | a document delivers keys unless an RSA entry with a kid does not parse, and exactly for the kids of its RSA entries |
| KeyCache.LastKeyWins | backend/auth/jwks.go:96-135 | each kid has the key of the last RSA entry that has it |
| KeyCache.FetchesSpaced | backend/auth/jwks.go:61-82 | over every run, the cache holds what the latest successful fetch brought, and after a success every later fetch is more than the cooldown away |
| KeyCache.AnswersFresh | backend/auth/jwks.go:61-82 | every key returned in every run is what the latest successful fetch maps the kid to, younger than the TTL or fetched by that lookup |
| KeyCache.FreshAnswered | backend/auth/jwks.go:61-71 | a kid of a fresh key set is answered without a fetch |
| KeyCache.ApartIffFailuresApart | backend/auth/jwks.go:68-74 | exact condition: a request is more than the cooldown after all earlier requests iff it is after the failed ones |
| KeyCache.RunApartIff | backend/auth/jwks.go:68-74 | the same for all requests of every run |
| KeyCache.FailuresHammer | backend/auth/jwks.go:68-74 | n lookups at one instant on a failing endpoint make n requests, so the promise fails for every n above 1 |
| KeyCache.AsksIff | backend/auth/jwks.go:61-82 | the endpoint is asked iff the lookup misses and no success lies within the cooldown |

## Left out

- HTTP handlers, middleware, cron, configuration, HTML pages, e-mail, QR codes and the frontend.
- SQL text and migrations: only each statement's effect, its WHERE condition, its transaction and its unique keys are modelled.
- JWT signing, SHA-256, bcrypt and RSA: tokens are records, keys are opaque, a JWK either parses or does not.
- `net/url`, IDNA and IP parsing: URLs are read by a parser of scheme, host, path and the rest; percent-encoding, ports in path position and control characters are not modelled, and the rebuilt destination is the submitted text.
- Analytics, admin listings, abuse reports, API-key management and the syntactic scanner's remaining heuristics, which would add only easy members.
- Failing store reads, except where the code goes on after one (display lookups, the verified-domain lookup, target rules, the re-scan listing): elsewhere they end the call before its write.
- Screenshots, entity data and decision reasons of prefixes: checked on input, not stored.
- Owner edits of destination, deep link, schedule and rules are one statement that may write anything; their permission checks and audit rows are not modelled. Rules are kept on the link row.
- Whether an actor owns the org is an argument of the prefix and domain calls; it is modelled in full on the membership side.
- Users with an unusual status come from outside: no call of the backend changes a user's status. The listing Me returns is not modelled.
- Namespace.NamespaceSafe: holds for atomic calls; Interleaving and Races say what is left without that.
- Resolver.ResolveService.Visit: requests run one after the other; overlapping lookups are modelled on the throttle, and overlapping writes in Traffic.
- Schedules.WithinIff: stated for a cooldown no shorter than the window, as it is wired, and a window longer than one clock tick.
- Lookups.RefusedIff: requests run one after the other, with a cooldown no shorter than the window, as it is wired; Schedules says what overlapping lookups do.
- Rescan.RescanService.Run: nothing else writes to the links during a run.
- SessionSafety.RunKeeps: calls are atomic; SessionRaces says what late removals, invitations and status writes do.
- Accounts.AccountService.AcceptPendingInvites: creation times of invites follow their ids, and the insert that loses a race to the same membership is not modelled.
