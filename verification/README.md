# MIAD Market: models and proofs

This project models the self-contained state machines and codecs of the marketplace and proves what they
promise over every input and every run. Code that works on values is modelled by functions; code that updates
state in place is modelled by classes and loops whose contracts tie them to those functions, and the theorems
are about the functions. Time is an argument that never decreases. A table is a map (or, for the catalogue, a
sequence ordered by id), and each handler is one step.

| file | what it models |
|---|---|
| SlidingWindow.dfy, Guard.dfy, SharedBuckets.dfy | the abuse guard's sliding-window counters, its HTTP rules and its janitor; rules that share buckets |
| Blocklist.dfy, BlockLimits.dfy | the shared blocklist and the caches of several guards over it, and how far they can be trusted |
| GuardBlocks.dfy, GuardTraffic.dfy | from a trigger to the refusal; from requests to a trigger, with the shipped rules |
| Base64Url.dfy, Tokens.dfy | the token printer and its three parsers |
| Sessions.dfy | revocation through session versions |
| Totp.dfy | one-time codes and the two-factor switches of an account |
| Cart.dfy, CartSync.dfy | the cart as a key-to-quantity map, and its two replicas |
| Navigation.dfy | the storefront's navigation stack |
| RateLimit.dfy | the front end's rate limiter |
| Repair.dfy, Crawl.dfy | the two catalogue repair passes; the paged listing and its four crawlers |
| OrderImport.dfy, Reimport.dfy | the WooCommerce order importer; importing again |
| PaymentRouting.dfy | the mobile money routing screen |
| XmlEscape.dfy, RecentlyViewed.dfy | the feed's escaper against the entity decoder; the recently viewed list |
| Options.dfy, Texts.dfy | options and runs; splitting and decimal printing |

`dafny verify dfyconfig.toml` checks everything.

## Where the code falls short of its documentation or of what one expects

The model follows the code. Each point is proved, with the exact condition where there is one.

- rate-limit.ts calls itself a sliding window; it is a fixed window, and up to 2 x limit - 1 calls pass within
  one window length (`WindowBound`, `WindowBoundIsTight`), so that it keeps its promise for limits of 1 only
  (`KeepsToLimitExactly`).
- Revocation is documented for all sessions; tokens from registration (auth-svc line 1153) and impersonation
  (line 1911) carry no version and are never revoked (`UnversionedTokensOutliveRevocation`), and admin-svc judges
  a customer's token by an admin counter (`CustomerTokenAtAdminSvc`).
- Go compares the expiry in whole seconds and the edge in milliseconds; they part within one second
  (`ExpiryDiffersOnlyWithinOneSecond`).
- disable2FA is documented as the guard against removing two-factor with a stolen session alone; starting a new
  setup removes it without a code (`OnUntilDisturbed`).
- A block pushed by one guard can be missed by another whose cache is fresh (`GapExactly`, `TwoGuardsLeaveAGap`), and
  so can an unblock (`UnblockReachesOthersExactly`).
- Buckets are named by rule and key joined with a bar, and nothing stops a configuration from naming two rules so
  that they share some; this changes decisions unless they all fire at a single hit (`SharingIsHarmlessExactly`).
  The shipped rules share none (`DefaultRulesWellConfigured`).
- Cart requests that overtake one another can revive a removed line (`OvertakenDeleteRevivesLine`), and logging in
  again deletes the lines remembered from before logging out (`ReloginDeletesRememberedLines`).
- Cart keys are split at dashes, which is right exactly for ids without one (`UnKeyOfKeyExactly`). The failure is
  latent: all ids are numbers printed in decimal (`PrintedIdsAreDashFree`).
- Go drops line breaks inside a token segment and the edge pads before dropping them; they part exactly when
  neither the number of line breaks nor the length is a multiple of four (`LineBreaksPartTheReaders`,
  `TheReadersPart`). This too is latent: tokens reach the edge in a header field, which cannot hold a line break
  (section 5.5 of RFC 9110), or as auth-svc prints them.
- The other way round the edge also reads the standard alphabet, blanks and padding, which Go refuses
  (`GoReadsWhatEdgeReads`); auth-svc prints none of these.
- A listing asked for with `include` says has_more although it serves everything, so a loop that follows it would
  collect the list several times unless it fits one page (`IncludeOverstatesExactly`).
- An exception on any page loses the whole of the feed's or the shop's crawl, unlike the sitemap's
  (`FetchAllProducts`, `FetchAllPublished`).
- The importer keeps the lines of unresolved shops under vendor 0, where the group row lives: that order has no
  group row (`GroupRowExactly`), and two such shops overwrite each other (`LinesKeptExactly`). It is documented as
  idempotent; run again it duplicates nothing (`AgainRelines`), but leaves the rows as they are exactly while the same
  lines are written last (`ReimportOnlyTouchesTimestampsExactly`): two unresolved shops visited in another order
  change the stored row (`SharedVendorIsRewritten`). Importing again after reconciling a shop mostly fails on the
  unique reference (`ReconciledShopStoredExactly`), and importing an order that has changed refreshes its lines but
  not its subtotals (`SubtotalStillMatchesExactly`).
- The routing screen keeps one code per aggregator, country and first word of the label: in Mozambique Vodacom's
  code is overwritten by Movitel's (`VodacomIsOverwritten`); a PUT with only one of a row's codes may not show
  (`HalfEditShowsExactly`).
- The two repair passes reach a common end state when the collapse comes first; their order matters exactly when a
  selected product has a lone variation (`CommonFixpoint`, `OrderMattersExactly`).

## Model

| member | source | states |
|---|---|---|
| `SlidingWindow.DecidesLikeTheFullLog` | internal/kit/guard.go:511-546 | Over every run of hits and sweeps at nondecreasing times, a hit triggers exactly when a log that is never pruned counts at least the threshold of hits (or failures) since its own last trigger, no older than the window |
| `SlidingWindow.RunMatches` | internal/kit/guard.go:521-546 | The invariant behind it: a bucket always holds that log, less only what has already left the window |
| `SlidingWindow.BurstTriggers` | internal/kit/guard.go:521-546 | No stretch of a run that fits in one window and holds the threshold of counted hits passes without a trigger inside it |
| `SlidingWindow.TriggersAtThreshold` | internal/kit/guard.go:530-546 | A trigger always falls on a counted hit and reports exactly the threshold, never more |
| `SlidingWindow.LiveBelowThreshold` | internal/kit/guard.go:530-546 | Between calls a bucket holds fewer counted entries than the threshold |
| `SlidingWindow.CountedHitsAccountedFor` | internal/kit/guard.go:521-546 | Over every run, counted hits = threshold x triggers + pruned + still held |
| `SlidingWindow.FailsWithinHits` | internal/kit/guard.go:521-546 | Over every run, whatever the clock does, the failures of a bucket are a subsequence of its occurrences |
| `SlidingWindow.PruneIsFirstKept` | internal/kit/guard.go:745-754 | The code's scan for the first entry to keep and the recursive pruning give the same list, sorted or not |
| `SlidingWindow.NaiveIgnoresSweeps` | internal/kit/guard.go:756-783 | The never-pruned log decides the same with all sweeps left out of the run |
| `Guards.PruneInPlace` | internal/kit/guard.go:745-754 | The loop drops exactly the leading entries before the cutoff |
| `Guards.CountHit` | internal/kit/guard.go:521-546 | Prune, append, compare and reset, in the order of the code, make the outcome the run theorems speak of |
| `Guards.SweepAll` | internal/kit/guard.go:764-776 | In whatever order the map is iterated, every bucket is pruned once and exactly the emptied ones are deleted |
| `Guards.Guard.HitKey` | internal/kit/guard.go:511-546 | A call answers what the run so far decides and adds exactly that hit to the run |
| `Guards.Guard.Note` | internal/kit/guard.go:480-502 | A handler's note feeds the first rule of that name only, under the given key or else the client's ip; an unknown name changes nothing |
| `Guards.Guard.EvalHttp` | internal/kit/guard.go:441-465 | Evaluating a finished request extends the run by its hits, in rule order; RequestHits says which |
| `Guards.Guard.Janitor` | internal/kit/guard.go:756-776 | A sweep uses the widest window of all rules and is one step of the run |
| `Guards.SharingIsCovering` | internal/kit/guard.go:511-520 | Two rules can ever share a bucket exactly when the name of one, with its bar, is a prefix of the name of the other with its bar |
| `Guards.BucketsAreIndependent` | internal/kit/guard.go:511-546 | For a rule with no such name beside it, the shared map holds for every key the bucket that pair alone would have |
| `Guards.DecisionIsTheFullLogs` | internal/kit/guard.go:511-546 | Every decision on such a rule, among many rules and keys, is the one the full log of that rule and key would take |
| `Guards.JanitorIsInvisible` | internal/kit/guard.go:756-783 | Removing all sweeps and deletions from a run changes no decision on such a rule |
| `Guards.MaxWindowCovers` | internal/kit/guard.go:757-763 | The sweep's window is at least every rule's window |
| `Guards.DefaultRulesWellConfigured` | internal/kit/guard.go:290-375 | The nine shipped rules never share a bucket, and block for at least one cache refresh |
| `SharedBuckets.SharingIsHarmlessExactly` | internal/kit/guard.go:511-546 | With nonnegative windows, every decision of every run is that of its own full log exactly when rules that can meet in a bucket all fire at a single hit, in particular when none can meet |
| `SharedBuckets.SharingShows` | internal/kit/guard.go:511-546 | Two rules that can meet, one of them with a threshold above 1, get in some run a decision unlike the full log's |
| `SharedBuckets.FiresTooEarly` | internal/kit/guard.go:530-546 | A hit of the other rule counts for this one, which fires one hit early |
| `SharedBuckets.FiresTooLate` | internal/kit/guard.go:540-546 | A trigger of the other rule empties the bucket, and this one misses the hit at which it should fire |
| `SharedBuckets.NoFailureKept` | internal/kit/guard.go:530-546 | A bucket that only rules firing at a single hit can write to never keeps a failure |
| `Blocklist.Table.Upsert` | services/admin-svc/main.go:2070-2080 | A pushed block never shortens the stored expiry |
| `Blocklist.BlockCache.HandleTrigger` | internal/kit/guard.go:564-606 | Only a blocking rule with a known ip touches the table and the cache |
| `Blocklist.BlockCache.BlockIp` | internal/kit/guard.go:608-634 | The table keeps the later expiry while the cache takes the new one, even when it is shorter |
| `Blocklist.BlockCache.IsBlocked` | internal/kit/guard.go:636-661 | The answer and the cache after a question, with the table read only when no live entry is cached and the cache is stale |
| `Blocklist.BlockCache.RefreshBlocked` | internal/kit/guard.go:663-700 | The cache becomes the live part of the table for 30 s |
| `Blocklist.BlockCache.Forget` | internal/kit/guard.go:777-781 | The janitor only forces the next question to read the table |
| `Blocklist.BlockCache.Unblock` | internal/kit/guard.go:868-878 | An unblock removes the ip from the table and from this cache only |
| `Blocklist.BlockCache.BlockManual` | internal/kit/guard.go:880-898 | A manual block replaces the stored expiry, earlier or later |
| `Blocklist.RunKnows` | internal/kit/guard.go:608-700 | The invariant behind it all, over every run of any number of guards on one table: the table shows at least the latest expiry a guard must know of, and its cache does so too, or is read again as soon as its own entry expires |
| `Blocklist.NoGapBeforeKnown` | internal/kit/guard.go:608-700 | In every run whatsoever a guard refuses an ip at every moment before any expiry it pushed itself, whoever else pushes meanwhile, and before any expiry another guard pushed at least 30 s ago; the reckoning starts anew when somebody handles the ip by hand, a manual block counting from there, or when the guard itself blocks it for less than 30 s |
| `Blocklist.OwnBlockHolds` | internal/kit/guard.go:608-661 | In particular a block a guard pushes at any point of a run, whatever came before, holds at that guard until it expires, unless the ip is handled by hand or this guard blocks it for less than 30 s afterwards |
| `Blocklist.NoGapInBlocking` | internal/kit/guard.go:608-661 | It refuses until the very expiry the table shows when what other guards wrote since the ip was last handled by hand is at least 30 s old and its own blocks since then last that long |
| `Blocklist.TableHoldsTheLatestPush` | services/admin-svc/main.go:2070-2080 | In every run the table holds the latest expiry anybody pushed since somebody last handled the ip by hand, and what that one wrote |
| `BlockLimits.UnblockReachesOthersExactly` | internal/kit/guard.go:868-878 | After an unblock at one guard, and while nobody blocks the ip again, another guard goes on refusing it exactly until its cached entry expires or it reads the table for whatever reason |
| `BlockLimits.ForgetRereads` | internal/kit/guard.go:777-781 | After a sweep the next question about an ip without a live entry is answered by the table |
| `BlockLimits.QuietIsSettled` | internal/kit/guard.go:608-700 | After 30 quiet seconds a guard whose rules block for that long meets the condition of NoGapInBlocking for every ip |
| `BlockLimits.RefusalIsFounded` | internal/kit/guard.go:636-700 | A refused ip is blocked in the table, up to the second lost in printing times, unless it was handled by hand at another guard and this one has not read the table since |
| `BlockLimits.MisledUntilRead` | internal/kit/guard.go:868-898 | Handling an ip by hand misleads exactly the other guards, until they read the table |
| `BlockLimits.LocalGuardFollowsTheTable` | internal/kit/guard.go:636-700 | A guard on the table itself refuses at least until the latest expiry it must know of; unless misled in that way, only while the table blocks, and exactly while it does when nothing was written elsewhere within 30 s |
| `BlockLimits.GapExactly` | internal/kit/guard.go:636-661 | Without the bound on other guards, a blocked ip passes exactly when the cache is still fresh and its own entry is missing or expired |
| `BlockLimits.TwoGuardsLeaveAGap` | internal/kit/guard.go:636-700 | Two guards that read the table over HTTP: one reads it, the other blocks an ip for 15 minutes a second later, and the first lets that ip pass the second after |
| `GuardBlocks.RecordHit` | internal/kit/guard.go:511-606 | One hit counts, and its trigger of a blocking rule pushes exactly one block for the ip |
| `GuardBlocks.BurstIsRefused` | internal/kit/guard.go:511-661 | A burst under any key of a blocking rule, be it an ip, an email or a phone number, that fits in the window and holds the threshold of counted hits contains a trigger; and this guard refuses the ip of that trigger, if it has one, until its block expires, whatever happened before and whatever happens here or at other guards afterwards, unless somebody then handles that ip by hand |
| `GuardBlocks.TriggerIsRefused` | internal/kit/guard.go:564-661 | Every trigger of a blocking rule is followed by refusals of its ip until its block expires, whatever came before, unless somebody handles that ip by hand afterwards |
| `GuardBlocks.FindTrigger` | internal/kit/guard.go:511-546 | A trigger of one counter of the guard, under whatever key, is a deciding hit among its events |
| `GuardTraffic.MatcherCriteria` | internal/kit/guard.go:446-463 | A matcher asks for its methods, its exact path, its prefix, its least status and its 404, each on its own and nothing else |
| `GuardTraffic.RequestHits` | internal/kit/guard.go:441-465 | A finished request adds one unfailed hit under its ip to every rule whose matcher it meets, and nothing under any other rule or key |
| `GuardTraffic.ShippedRulesWatch` | internal/kit/guard.go:290-375 | With the shipped rules: order_id_scan counts exactly the GETs under /orders/ that end in 404, coupon_bruteforce, catalog_scrape and card_testing exactly their verb and prefix, error_flood exactly the answers from 400 on, and the other rules nothing |
| `GuardTraffic.RequestCounts` | internal/kit/guard.go:441-465 | The events of a request are to the counters what evaluating it does |
| `GuardTraffic.TrafficIsRefused` | internal/kit/guard.go:441-661 | As many requests from one ip that feed a blocking rule as its threshold, within its window, and the guard refuses that ip until the block expires, whatever else happens short of handling the ip by hand |
| `GuardTraffic.ShippedTrafficIsRefused` | internal/kit/guard.go:290-375 | 20 requests for orders in a minute that end in 404, 30 tries of a coupon in five minutes, 100 errors in two or 8 payments begun in ten, from one ip, get it refused for 15, 20, 10 or 60 minutes |
| `GuardTraffic.ShippedFailuresAreRefused` | internal/kit/guard.go:315-345 | 10 failed logins in five minutes or 5 wrong codes in ten, under one key, contain a trigger whose ip is refused for 30 or 60 minutes; successes in between do not count |
| `GuardTraffic.OtherRulesTrigger` | internal/kit/guard.go:290-375 | The rules that do not block: 300 catalogue requests in five minutes throttle, and an admin at a new address or 5 payouts in ten minutes alert |
| `Base64Url.BytesOfSextets` | services/auth-svc/main.go:2134 | Regrouping bytes into sextets and back loses nothing, for every length |
| `Base64Url.EncodedIsSafe` | services/auth-svc/main.go:2134 | Encoded text uses only the URL-safe alphabet of section 5 of RFC 4648, so never a dot |
| `Base64Url.GoRoundTrip` | services/auth-svc/main.go:1967-1976 | Go's decoder gives back every encoded byte sequence |
| `Base64Url.TsRoundTrip` | frontend/lib/miad-server-auth.ts:53-59 | The browser-side decoder, which translates, pads and calls atob, gives it back too |
| `Base64Url.Base64UrlToBytes` | frontend/lib/miad-server-auth.ts:53-59 | The loop that fills the byte array computes that decoding, failures included |
| `Base64Url.SafeTextReadsAlike` | frontend/lib/miad-server-auth.ts:53-59 | On every text of the URL-safe alphabet both decoders accept or refuse alike and agree on the bytes |
| `Base64Url.GoAcceptsTsAgrees` | frontend/lib/miad-server-auth.ts:53-59 | Whatever Go accepts without a line break, the other decoder reads as the same bytes |
| `Base64Url.LineBreaksPartTheReaders` | frontend/lib/miad-server-auth.ts:53-59 | On any text Go accepts, the other decoder reads the same bytes exactly when its line breaks number a multiple of four or its length does, and fails otherwise |
| `Base64Url.OneLineBreakParts` | frontend/lib/miad-server-auth.ts:53-59 | A line break after a printed text is skipped by Go, and makes the other decoder fail unless the text is one short of a multiple of four |
| `Base64Url.TheReadersPart` | frontend/lib/miad-server-auth.ts:53-59 | So the text QQ and a line break is the byte 65 to Go and a failure to the other decoder |
| `Base64Url.BrowserTextGoReads` | services/auth-svc/main.go:1967-1976 | What the browser-side decoder accepts, Go reads as the same bytes exactly when it holds only letters of the URL-safe alphabet and line breaks, and refuses otherwise |
| `Tokens.SignedTokenHasThreeSegments` | services/auth-svc/main.go:2119-2127 | Every printed token splits at dots into exactly header, payload and signature (section 7.1 of RFC 7515) |
| `Tokens.HeaderIsJson` | services/auth-svc/main.go:2119-2127 | The header names HS256 and JWT |
| `Tokens.SignedTokenParses` | services/auth-svc/main.go:1959-1979 | auth-svc's parser gives back the claims of every token its printer made |
| `Tokens.AuthRoundTrip` | services/auth-svc/main.go:1959-2001 | Such a token is refused exactly when expired or behind its account's counter, and otherwise gives back its claims |
| `Tokens.TsRoundTripToken` | frontend/lib/miad-server-auth.ts:84-105 | The edge verifier accepts every printed token up to its expiry in milliseconds |
| `Tokens.ExpiryDiffersOnlyWithinOneSecond` | frontend/lib/miad-server-auth.ts:84-105 | On an unrevoked token the edge and auth-svc disagree exactly inside the one second after the expiry |
| `Tokens.EdgeReadsWhatGoReads` | frontend/lib/miad-server-auth.ts:84-105 | Any token Go parses, printed by it or not, means the same to the edge exactly when payload and signature fit in that sense, which they do without line breaks; otherwise the edge refuses it |
| `Tokens.GoReadsWhatEdgeReads` | services/auth-svc/main.go:1959-1979 | Any token the edge accepts has the same claims to Go exactly when payload and signature hold only such characters; otherwise Go refuses it |
| `Tokens.CounterKeysSeparate` | services/auth-svc/main.go:2009-2041 | The counters of two accounts, or of an admin and a customer of the same id, never share a key |
| `Tokens.SameVerdictExactly` | services/admin-svc/main.go:2301-2343 | auth-svc and admin-svc disagree on a token exactly when it is live, versioned, and behind one of the two counters they read but not the other |
| `Tokens.SameVerdictOutsideCustomers` | services/admin-svc/main.go:2301-2343 | On a token whose role is not customer they agree, unless it is live and carries a negative version while its counter does not exist |
| `Tokens.HeaderCheckAgrees` | services/auth-svc/main.go:2060-2092 | The check of the forwarded customer token is the full verification without the expiry, and an absent header passes |
| `Sessions.AuthServer.SessionVersion` | services/auth-svc/main.go:2009-2041 | The version read for an account is the number of times it has been revoked so far |
| `Sessions.AuthServer.RevokeCustomerSessions` | services/auth-svc/main.go:2047-2049 | A password reset is one revocation of that customer and of nobody else |
| `Sessions.AuthServer.RevokeAdminSessions` | services/auth-svc/main.go:2098-2115 | A revocation answers how often that admin has now been revoked |
| `Sessions.AuthServer.SetAdminActive` | services/auth-svc/main.go:1726-1750 | Deactivating an admin adds one to that admin's counter; reactivating changes no counter |
| `Sessions.AuthServer.AdminLogin` | services/auth-svc/main.go:407-411 | An admin login signs the number of revocations so far |
| `Sessions.AuthServer.CustomerLogin` | services/auth-svc/main.go:1211-1216 | So does a customer login, in the other key space |
| `Sessions.AuthServer.IssueUnversioned` | services/auth-svc/main.go:1153-1157 | Registration, and impersonation likewise, sign no version |
| `Sessions.AuthServer.ClaimsFromRequest` | services/auth-svc/main.go:1959-2001 | Verification in the order of the code gives the verdict the run theorems speak of |
| `Sessions.CounterCounts` | services/auth-svc/main.go:2009-2115 | After every run an admin's counter is the number of times that admin was revoked or deactivated, and a customer's the number of times that customer's password was reset |
| `Sessions.AcceptedUnlessRevoked` | services/auth-svc/main.go:1989-1998 | An unexpired token from a login names its account and role, and is accepted after any run exactly when there was no such step for that account since it was issued |
| `Sessions.RevokingEndsTokens` | services/auth-svc/main.go:1747-1748 | Revoking or deactivating an admin, or resetting a customer's password, refuses every token that account got by logging in before, at every later point of every run |
| `Sessions.AdminSvcAgrees` | services/admin-svc/main.go:2333-2341 | The same verdict at admin-svc for every admin token |
| `Sessions.UnversionedTokensOutliveRevocation` | services/auth-svc/main.go:1153-1160 | Tokens from registration and impersonation name the customer, carry no version and survive every revocation, at the check of the forwarded header too; one from impersonation says so |
| `Sessions.CustomerTokenAtAdminSvc` | services/admin-svc/main.go:2333-2341 | admin-svc judges a customer's token by the counter of the admin with the same id |
| `Totp.StepBytes` | services/auth-svc/main.go:771-776 | The byte loop writes the big-endian form of the step modulo 2^64, also for negative steps |
| `Totp.BytesOfBigEndian` | services/auth-svc/main.go:771-776 | Eight bytes determine the step: big-endian reading and writing are inverse |
| `Totp.MessageExactly` | services/auth-svc/main.go:771-776 | The message is the step modulo 2^64 in eight bytes, the most significant first (section 5.1 of RFC 4226) |
| `Totp.TruncatedIsBigEndian` | services/auth-svc/main.go:780-785 | Truncation reads the four bytes at the offset named by the last one as a big-endian number and drops its top bit (section 5.3 of RFC 4226) |
| `Totp.ExampleCode` | services/auth-svc/main.go:780-786 | The example of section 5.4 of RFC 4226 gives 872921 |
| `Totp.CodeIsSixDigits` | services/auth-svc/main.go:777-786 | Dynamic truncation stays inside a 20-byte MAC and always prints six digits of that value (section 5.3 of RFC 4226) |
| `Totp.GenerateTotp` | services/auth-svc/main.go:771-786 | The imperative generator prints six digits that spell that number modulo one million |
| `Totp.VerifyTotp` | services/auth-svc/main.go:754-769 | The loop over three steps accepts exactly the codes of the previous, current and next step of a decodable secret |
| `Totp.RecentCodeAccepted` | services/auth-svc/main.go:754-769 | A code made at most 30 s before or after is accepted (section 5.2 of RFC 6238) |
| `Totp.AcceptedCodeIsRecent` | services/auth-svc/main.go:754-769 | An accepted code belongs to a step that starts less than 60 s ago and at most 30 s ahead |
| `Totp.ToleranceExactly` | services/auth-svc/main.go:757-766 | The exact tolerance in seconds, as it depends on the position within the current step |
| `Totp.AdminRow.Setup2FA` | services/auth-svc/main.go:596-617 | Starting a setup replaces the secret and switches two-factor off without asking for a code |
| `Totp.AdminRow.Verify2FASetup` | services/auth-svc/main.go:623-654 | Two-factor is switched on only by a valid code for the stored secret |
| `Totp.AdminRow.Disable2FA` | services/auth-svc/main.go:659-695 | Disabling needs a valid code and forgets the secret |
| `Totp.EnabledMeansConfirmed` | services/auth-svc/main.go:596-695 | In every run, an enabled account has a decodable secret for which a valid code was given since that secret was set |
| `Totp.OnUntilDisturbed` | services/auth-svc/main.go:596-695 | Once on, the second factor stays on through every run without a new setup or a valid disabling code, and the first such step switches it off; a setup does so without any code |
| `Totp.EnabledExactly` | services/auth-svc/main.go:596-695 | After a set-up, and while no other is started and no valid code is used to disable, the second factor is on exactly when some confirmation since carried a valid code for the new secret |
| `Totp.OffUntilSetup` | services/auth-svc/main.go:659-695 | A valid disabling code forgets the secret, and nothing but a new set-up can lead to the second factor being on again |
| `Cart.UnKeyOfKeyExactly` | frontend/app/MiadMarketClient.tsx:711-713 | Splitting a cart key at dashes gives back the line exactly when no id in it holds a dash and its variation is not empty |
| `Cart.KeyInjective` | frontend/app/MiadMarketClient.tsx:664 | Two different such lines never share a key |
| `Cart.DashesCollide` | frontend/app/MiadMarketClient.tsx:664 | A product whose id is another's with a dash and a variation's shares that variation's key |
| `Cart.PrintedIdsAreDashFree` | services/catalog-svc/main.go:1155-1165 | Ids that are numbers printed in decimal, which are all the cart handlers accept, are split back right |
| `Cart.AddPathsUpdateAlike` | frontend/lib/cart-store.ts:66-84 | The page's add and the store's add perform the same update of the key-to-quantity map on every cart |
| `Cart.AddedCountExactly` | frontend/app/MiadMarketClient.tsx:1764-1770 | The store's add raises the total by the added quantity; the page's add does so exactly when the key occurs at most once or nothing is added |
| `Cart.AddsSumUp` | frontend/app/MiadMarketClient.tsx:1764-1770 | From an empty cart adds by either path in any order leave under every key the sum of what was added under it |
| `Cart.UpdateGets` | frontend/app/MiadMarketClient.tsx:1774-1776 | Setting a quantity changes all lines of that product and no other line; zero or less removes them |
| `Cart.MergeIsPointwiseMax` | frontend/app/MiadMarketClient.tsx:663-676 | The login merge is the pointwise maximum of the two carts, whatever repeats they hold |
| `Cart.MergeIdempotent` | frontend/app/MiadMarketClient.tsx:663-676 | Merging the same server cart again changes nothing, not even the order |
| `Cart.MergeServerItems` | frontend/app/MiadMarketClient.tsx:665-675 | The loop over a copied array computes that merge |
| `Cart.EditsKeepCartGood` | frontend/app/MiadMarketClient.tsx:663-1814 | In every run of adds, updates, removals and merges keys stay unique and quantities at least 1 |
| `Cart.CartStore.GetCartSnapshot` | frontend/lib/cart-store.ts:55-62 | The cached snapshot is always the parse of the stored text |
| `Cart.CartStore.AddItemToCart` | frontend/lib/cart-store.ts:66-84 | An add writes back the updated cart, and leaves unreadable text alone |
| `Cart.CartStore.GetCartCount` | frontend/lib/cart-store.ts:38-44 | The count is the sum of the stored quantities |
| `Cart.AddThenCount` | frontend/lib/cart-store.ts:38-84 | With a faithful JSON codec, an add to a readable cart raises the header's count by exactly the added quantity |
| `CartSync.CartTable.UpsertCartItem` | services/catalog-svc/main.go:1155-1187 | A PUT sets the quantity of one line, or is refused when not positive |
| `CartSync.CartTable.RemoveCartItem` | services/catalog-svc/main.go:1189-1215 | A DELETE removes that line if present |
| `CartSync.CartTable.ClearCart` | services/catalog-svc/main.go:1217-1230 | Clearing leaves what deleting each line would, in any order and any number of times |
| `CartSync.ClearingIsDeletingEveryLine` | services/catalog-svc/main.go:1217-1230 | Deleting each line of a cart, in any order and any number of times, empties it |
| `CartSync.SyncEffect.Run` | frontend/app/MiadMarketClient.tsx:689-718 | One run of the effect sends exactly a PUT per line and a DELETE per vanished key, and remembers the keys; the first run after login sends nothing |
| `CartSync.LastMessageWins` | services/catalog-svc/main.go:1155-1215 | Under any delivery a row is what the last accepted message about it says |
| `CartSync.RoundConverges` | frontend/app/MiadMarketClient.tsx:689-718 | One round, delivered in any order with any repeats, leaves the server equal to the cart, and the assumption of the next round holds |
| `CartSync.RoundsConverge` | frontend/app/MiadMarketClient.tsx:689-718 | So it does round after round, each delivered before the next |
| `CartSync.OvertakingConvergesExactly` | frontend/app/MiadMarketClient.tsx:701-717 | With any number of rounds in flight together, in any order with any repeats, the server ends with the last cart exactly when the message delivered last about each line is that of the last round that mentions it |
| `CartSync.InOrderPerLineConverges` | frontend/app/MiadMarketClient.tsx:701-717 | So rounds may overtake one another freely as long as no line sees its own messages out of order |
| `CartSync.LastSaidIsWanted` | frontend/app/MiadMarketClient.tsx:701-717 | The last round to mention a line says about it what the last cart says |
| `CartSync.OvertakenDeleteRevivesLine` | frontend/app/MiadMarketClient.tsx:701-717 | An add overtaken by its removal leaves the line on the server |
| `CartSync.ReloginDeletesRememberedLines` | frontend/app/MiadMarketClient.tsx:1170-1190 | Whatever the cart holds after logging out and in again, the first round gives the server its quantities, deletes every other line remembered from before and leaves the rest |
| `CartSync.LoginConverges` | frontend/app/MiadMarketClient.tsx:655-718 | For carts without dashes in ids, repeated keys or empty quantities: after a login the merge and the delivered round that carries it leave both replicas equal to the pointwise maximum of the two carts, whatever keys are still remembered |
| `CartSync.MergedHolds` | frontend/app/MiadMarketClient.tsx:663-676 | Line by line the merged cart holds that maximum, and stays free of repeats and of keys that collide |
| `Navigation.Page.NavigateTo` | frontend/app/MiadMarketClient.tsx:858-907 | A change of view pushes the screen as last rendered, and nothing happens otherwise |
| `Navigation.Page.HandleProductClick` | frontend/app/MiadMarketClient.tsx:1028-1065 | From one product to another pushes although the view stays |
| `Navigation.Page.HandleVendorClick` | frontend/app/MiadMarketClient.tsx:1067-1101 | The same between shops |
| `Navigation.Page.OpenCategory` | frontend/app/MiadMarketClient.tsx:1107-1111 | Opening a category sets it with fresh filters and navigates there |
| `Navigation.Page.HandleCountryClick` | frontend/app/MiadMarketClient.tsx:1717-1724 | A country on the list is opened; any other changes nothing |
| `Navigation.Page.OnHomeClick` | frontend/app/MiadMarketClient.tsx:1904 | Going home drops the category and the search text |
| `Navigation.Page.OnOrderComplete` | frontend/app/MiadMarketClient.tsx:2079-2086 | A completed order empties the stack before it moves on |
| `Navigation.Page.HandleSelectHomeTab` | frontend/app/MiadMarketClient.tsx:1119-1136 | A different home tab pushes, the same one does nothing |
| `Navigation.Page.HandleSearch` | frontend/app/MiadMarketClient.tsx:1711-1715 | Only entering the search pushes; refining it does not |
| `Navigation.Page.RestoreFromStack` | frontend/app/MiadMarketClient.tsx:909-945 | A back step pops one snapshot, or goes home on an empty stack |
| `Navigation.ProductClick` | frontend/app/MiadMarketClient.tsx:1028-1065 | After clicking a product the view is the product page of exactly that product with no search text, all else as before, and the former screen is on the stack exactly when it was not already showing a product of that id |
| `Navigation.VendorClick` | frontend/app/MiadMarketClient.tsx:1067-1099 | After clicking a shop the view is that shop with no search text, all else as before, and the former screen is on the stack, even if it showed the same shop |
| `Navigation.CategoryClick` | frontend/app/MiadMarketClient.tsx:1105-1109 | After opening a category it is shown with fresh filters, all else as before, and the former screen is on the stack unless it was a category |
| `Navigation.CountryClick` | frontend/app/MiadMarketClient.tsx:1717-1724 | The same for a country, with nothing but the country changed |
| `Navigation.HomeTabClick` | frontend/app/MiadMarketClient.tsx:1119-1136 | Selecting a home tab changes the tab alone, and saves the screen unless it is the same tab |
| `Navigation.Searching` | frontend/app/MiadMarketClient.tsx:1711-1715 | Searching shows the search with its text, and saves the screen only on the way in |
| `Navigation.ForwardAndBack` | frontend/app/MiadMarketClient.tsx:858-945 | Any forward step followed straight by back is the identity on the stack and on every field but the search text, which only the search keeps; a step that saved nothing leaves back as it was |
| `Navigation.ShownWasOpened` | frontend/app/MiadMarketClient.tsx:858-1136 | In every run of clicks whatever is shown, or would be after going back, was opened by a step of that run, and no product, shop, category or country page lacks its subject |
| `Navigation.DepthsUntouched` | frontend/app/MiadMarketClient.tsx:858-945 | What lies below the surface of the stack is never changed by anything above it |
| `Navigation.BackRestoresItsPush` | frontend/app/MiadMarketClient.tsx:909-945 | Whatever happens between a push and its matching back, the back restores every field of the pushed screen, and the search text exactly when that screen was the search |
| `Navigation.EveryEntryWasPushed` | frontend/app/MiadMarketClient.tsx:858-945 | In every run from the first screen, each entry of the stack was pushed by a step of the run |
| `Navigation.EveryBackUndoesAPush` | frontend/app/MiadMarketClient.tsx:858-945 | So every back step that pops anything undoes one matching push |
| `RateLimit.Limiter.MaybeCleanup` | frontend/lib/rate-limit.ts:20-27 | Every 500th call deletes exactly the entries past their reset |
| `RateLimit.CleansEvery500Calls` | frontend/lib/rate-limit.ts:20-27 | Every 500th call of a run, and no other, deletes counters: exactly those past their reset |
| `RateLimit.Limiter.RateLimit` | frontend/lib/rate-limit.ts:35-55 | One call: the reply and the new counters |
| `RateLimit.StoreIsUncleaned` | frontend/lib/rate-limit.ts:20-55 | In every run a stored counter is the one of a limiter that never cleans up, or is gone because that one had expired |
| `RateLimit.CleanupIsInvisible` | frontend/lib/rate-limit.ts:20-55 | Every reply of every run is the one a limiter without clean-up gives |
| `RateLimit.RepliesCountEpochs` | frontend/lib/rate-limit.ts:35-55 | A whole answer, remaining count and reset time included, depends only on the calls of its key's current epoch, whatever other keys do |
| `RateLimit.EpochAllowsUpToLimit` | frontend/lib/rate-limit.ts:41-55 | An epoch lets through exactly the smaller of its calls and the limit; a limit below 1 still lets one through |
| `RateLimit.WindowBound` | frontend/lib/rate-limit.ts:35-55 | Over every run, any interval as long as the window holds at most 2 x limit - 1 allowed replies for a key |
| `RateLimit.WindowBoundIsTight` | frontend/lib/rate-limit.ts:35-55 | For every key, limit and window some run of the limiter reaches that number |
| `RateLimit.KeepsToLimitExactly` | frontend/lib/rate-limit.ts:35-55 | Every run keeps to the limit in every interval as long as the window exactly when the limit is at most 1 or the window is empty |
| `Repair.VariationsHaveSizeAttr` | services/catalog-svc/main.go:3662-3673 | The nested loops find a size attribute exactly when some variation has one, accents and case aside |
| `Repair.CatalogTables.Candidates` | services/catalog-svc/main.go:2939-2970 | The query finds every variable product with exactly one variation, once, in order of id, with the price and stock to copy |
| `Repair.CatalogTables.InsertGrid` | services/catalog-svc/main.go:3165-3197 | The transaction replaces one product by its backfilled form and touches no other |
| `Repair.CatalogTables.CollapseFakeVariables` | services/catalog-svc/main.go:2935-3016 | The collapse changes exactly the candidates of its query; a dry run changes nothing and counts the same |
| `Repair.CatalogTables.BackfillSizes` | services/catalog-svc/main.go:3060-3219 | The backfill gives every selected product without a size the whole grid; scanned, updated, skipped and filtered add up, dry run or not |
| `Repair.CollapseExactly` | services/catalog-svc/main.go:2935-3016 | After a collapse no variable product has a lone variation, and a product is changed exactly when it had |
| `Repair.CommonFixpoint` | services/catalog-svc/main.go:2935-3219 | After one collapse and any backfills, none of these passes changes anything any more |
| `Repair.CountsAreExact` | services/catalog-svc/main.go:3117-3219 | The predicted counts are the products changed and the variation rows created or removed by the real run |
| `Repair.OrderMattersExactly` | services/catalog-svc/main.go:2935-3219 | Collapsing first and backfilling first come to the same exactly when no selected product has a lone variation |
| `Repair.BackfillExactly` | services/catalog-svc/main.go:3150-3197 | A lacking product keeps its variations and gains one per size, in the grid's order, with its own price, stock and derived sku; any other is left alone |
| `Repair.BackfillReachesExactly` | services/catalog-svc/main.go:3060-3160 | A backfill changes exactly the products of a matching category, and of the one asked for if any, with a matching name and no variation with a size |
| `Repair.SizeNamesExactly` | services/catalog-svc/main.go:3662-3673 | An attribute is a size exactly when its name is one of five words, in any case and with any of the known accents |
| `Repair.GridHasSize` | services/catalog-svc/main.go:3150-3197 | The inserted grid is what makes the next backfill skip the product, and what keeps the collapse away |
| `Repair.ShippedSpecsAreUsable` | services/catalog-svc/main.go:3515-3568 | The two shipped grids have at least two sizes and attribute names the size test recognises |
| `Repair.GridsShipped` | services/catalog-svc/main.go:3515-3568 | The shoe grid runs from 36 to 46 and the clothing grid from S to XXXL |
| `Crawl.PagesTile` | services/catalog-svc/main.go:336-422 | The pages concatenate to the ordered listing without loss or repetition, for every page size asked for |
| `Crawl.OutOfBoundsIsDefault` | services/catalog-svc/main.go:333-345 | A page below 1 is answered as the first and a size out of bounds as 20 |
| `Crawl.PagingIsExact` | services/catalog-svc/main.go:508-517 | has_more says exactly that the next page has items, and total_pages is the number of the last such page |
| `Crawl.IncludeOverstatesExactly` | services/catalog-svc/main.go:413-425 | A loop that follows has_more collects an ordinary listing once, but an include list once per page of its length, so it is right exactly when the list fits one page |
| `Crawl.FetchAllCatalog` | frontend/app/sitemap.ts:31-53 | The sitemap's loop ends with the pages before the first failed request, exceptions included |
| `Crawl.FetchAllProducts` | frontend/lib/catalog-feed.ts:60-73 | The feed's loop likewise, up to 50 pages, except that an exception on a page it asks for loses the whole crawl |
| `Crawl.FetchAllPublished` | frontend/lib/woo-catalog.ts:150-167 | The shop's loop likewise, and as it does not read has_more it also asks for the page after a full last one |
| `Crawl.FetchAllPages` | services/admin-svc/main.go:1452-1475 | The back office's loop likewise, up to 20 pages, and reports a failure exactly when a needed request failed |
| `Crawl.CrawlIsWholeExactly` | frontend/app/sitemap.ts:31-53 | A crawl brings the whole listing home exactly when its cap leaves room for it and no needed page fails; otherwise a proper prefix |
| `Crawl.FirstFailureStops` | frontend/lib/catalog-feed.ts:59-70 | The first page not answered well, whatever is wrong with it, ends a crawl with the pages before it |
| `Crawl.CrawlsAreWholeExactly` | services/admin-svc/main.go:1452-1475 | With no failure the feed is whole exactly up to 5000 products and the back office up to 2000 |
| `OrderImport.SplitByVendor` | cmd/wc-data-import/main.go:548-552 | Each shop's items, in their order, and no shop without items |
| `OrderImport.SplitLosesNothing` | cmd/wc-data-import/main.go:548-604 | In every iteration order each item lands in exactly one part and the subtotals add up to the order |
| `OrderImport.OrdersTable.UpsertSubOrder` | cmd/wc-data-import/main.go:613-639 | A known (order, vendor) row is refreshed, a taken reference refuses the insert, and an id is consumed in every case |
| `OrderImport.OrdersTable.UpsertGroup` | cmd/wc-data-import/main.go:645-655 | The group row is created once per order at vendor 0; a row already there only gets a new update time |
| `OrderImport.OrdersTable.SetParent` | cmd/wc-data-import/main.go:657-663 | Linking changes the parent of one row and nothing else |
| `OrderImport.PriceItems` | cmd/wc-data-import/main.go:587-604 | The loop over one shop's items gives its subtotal and its lines in order, with a unit price of 0 for no quantity |
| `OrderImport.LinesExactly` | cmd/wc-data-import/main.go:587-604 | Each line holds what earlier imports know of its product, variation and shop, or 0, and a unit price that times the quantity is the total |
| `OrderImport.OrdersTable.VisitShop` | cmd/wc-data-import/main.go:578-680 | One turn: the part, then the group row if none is known yet, then the link; a refused insert does nothing but use up its number |
| `OrderImport.OrdersTable.ImportOrder` | cmd/wc-data-import/main.go:548-681 | The loop over the map, in whatever order it iterates, is one visit per shop of the order |
| `OrderImport.OrdersTable.ImportOrders` | cmd/wc-data-import/main.go:526-697 | The whole import is one such loop per order, orders without items changing nothing, and its three counts are the sums over the orders |
| `OrderImport.FirstImportStoresTheOrder` | cmd/wc-data-import/main.go:548-664 | When shops resolve to distinct vendors other than 0, a first import stores one row per shop with its lines and subtotal, all linked to one group row, and nothing else |
| `OrderImport.FirstImportFills` | cmd/wc-data-import/main.go:548-664 | Whatever the shops resolve to, a first import leaves one row per vendor written to, with the lines of the last shop that writes to it and the reference and amounts of the first, or of the group row when that was there before |
| `OrderImport.StatusesStored` | cmd/wc-data-import/main.go:243-258 | What each status of WooCommerce becomes on every row: payment, stage and status, both ways |
| `OrderImport.ReportIsExact` | cmd/wc-data-import/main.go:526-697 | A first import reports one row created per shop of the order, and as unresolved exactly the items whose shop was never imported |
| `Reimport.FirstImportReports` | cmd/wc-data-import/main.go:526-697 | Over all orders it reports one row per shop of each |
| `OrderImport.GroupRowExactly` | cmd/wc-data-import/main.go:645-664 | There is a group row exactly when no shop resolves to vendor 0; otherwise the row in its place is its own parent |
| `OrderImport.LinesKeptExactly` | cmd/wc-data-import/main.go:578-634 | As many lines are stored as the order has exactly when different shops resolve to different vendors |
| `Reimport.ReimportOnlyTouchesTimestampsExactly` | cmd/wc-data-import/main.go:526-690 | Running the whole import again, with any other iteration orders, changes nothing but update times exactly when every vendor of every order is written last by shops with the same lines in both imports |
| `Reimport.AgainRelines` | cmd/wc-data-import/main.go:548-681 | Importing a stored order once more changes no row but its lines and update time, and the lines are those of the last shop that writes to it |
| `Reimport.RewrittenRowsAreDated` | cmd/wc-data-import/main.go:613-655 | Every stored row an import writes to bears its time, and no row any time but that and its own |
| `Reimport.ReimportOnlyTouchesTimestamps` | cmd/wc-data-import/main.go:526-690 | In particular nothing but update times changes when different shops of an order resolve to different vendors, so with at most one unresolved shop |
| `Reimport.SharedVendorIsRewritten` | cmd/wc-data-import/main.go:526-690 | Two unresolved shops with different lines, visited last and in the other order the second time, change the stored row |
| `Reimport.ImportKeepsIndexed` | cmd/wc-data-import/main.go:613-655 | No import, of whatever orders and however often, gives two rows one id or one reference |
| `Reimport.RefusedVisit` | cmd/wc-data-import/main.go:613-642 | An insert that meets a taken reference writes nothing and uses up an id and its number |
| `Reimport.TakenAfterFirst` | cmd/wc-data-import/main.go:613-655 | After a first import the reference offered at a place is taken exactly when its visit was the first to write to its vendor, and that vendor was not 0 unless the place was the first |
| `Reimport.ReconciledShopStoredExactly` | cmd/wc-data-import/main.go:613-639 | A shop resolved to a new vendor only after the first import gets its row from a second one exactly when the place at which it is now visited is not the first and was then the place of an unresolved shop or of a vendor already written to; otherwise its reference is taken |
| `Reimport.ReconciledAmongUnresolved` | cmd/wc-data-import/main.go:613-639 | With vendors as the table has them, that is any place but the first where an unresolved shop was visited; with a single unresolved shop, its own |
| `Reimport.ImportKeepsAmounts` | cmd/wc-data-import/main.go:613-634 | No import ever changes the amounts of a stored row, and its lines become those of the last shop that writes to its vendor |
| `Reimport.SubtotalStillMatchesExactly` | cmd/wc-data-import/main.go:613-634 | After importing a changed order again, a stored subtotal agrees with the stored lines, for every vendor written to, exactly when what the first shop to write there came to at first, or 0 where the group row was there before, is what the items now shown come to, items without quantity aside |
| `Reimport.OwnSubtotalStillMatchesExactly` | cmd/wc-data-import/main.go:613-634 | For a shop with a vendor of its own, exactly when its items come to the same as at first |
| `OrderImport.PrintReferenceInjective` | cmd/wc-data-import/main.go:613-652 | The printed references are as different as the numbers in them |
| `PaymentRouting.AddPawapay` | services/payment-svc/payment-routing.go:59-78 | The nested loops file every PawaPay provider under its country and operator |
| `PaymentRouting.AddPaydunya` | services/payment-svc/payment-routing.go:79-91 | The second loop completes those rows or adds its own |
| `PaymentRouting.JoinIsFaithful` | services/payment-svc/payment-routing.go:59-91 | A row exists exactly for the countries and operators some provider has, and shows a code of each aggregator exactly when that aggregator has a provider there |
| `PaymentRouting.JoinIsFaithfulAt` | services/payment-svc/payment-routing.go:59-91 | A row shows the last code each aggregator lists under its key, and the label and country name of the first provider of all |
| `PaymentRouting.CountryNameExactly` | services/payment-svc/payment-routing.go:59-91 | A country known to PayDunya alone is shown under the name of the first PawaPay country with its code, or else under its code |
| `PaymentRouting.CodeShownExactly` | services/payment-svc/payment-routing.go:59-91 | A code is shown exactly when no later provider of its aggregator has the same country and operator |
| `PaymentRouting.SharedFirstWordOverwrites` | services/payment-svc/payment-routing.go:26-28 | Two providers whose labels start with the same word share a row, and the earlier code is shown nowhere |
| `PaymentRouting.VodacomIsOverwritten` | services/payment-svc/payment-routing.go:293-306 | With the service's own labels and Mozambique's own two codes, whatever the other countries and PayDunya offer, the row shows Movitel's code and no row shows Vodacom's |
| `PaymentRouting.TextIsUnambiguous` | services/payment-svc/payment-routing.go:97-108 | A printed country-bar-code key of plain parts belongs to that pair alone |
| `PaymentRouting.CopyOverrides` | services/payment-svc/payment-routing.go:97-108 | Whatever order the rows come in, the text-keyed copy answers every plain key as the table does |
| `PaymentRouting.ListRoutes` | services/payment-svc/payment-routing.go:140-156 | Every row is shown with its override, the PayDunya code winning, or else the default, and its switches |
| `PaymentRouting.Routing.SetPaymentRouting` | services/payment-svc/payment-routing.go:223-259 | A PUT with a country, a known aggregator and at least one code overrides each code it names; any other is refused and changes nothing |
| `PaymentRouting.Routing.DeletePaymentRouting` | services/payment-svc/payment-routing.go:263-286 | A DELETE removes the override of each code it names |
| `PaymentRouting.Routing.SetOperatorEnabled` | services/payment-svc/payment-routing.go:162-188 | An operator is switched under its normalised label; a label without a word panics |
| `PaymentRouting.Routing.SetCountryEnabled` | services/payment-svc/payment-routing.go:193-216 | A country is switched under its upper-case code |
| `PaymentRouting.WholeEditCovers` | services/payment-svc/payment-routing.go:223-286 | A PUT of a known aggregator, or a DELETE, for the row's country in either case and with all of its codes is accepted |
| `PaymentRouting.WordExactly` | services/payment-svc/payment-routing.go:26-28 | A label has an operator exactly when some character of it is not a space |
| `PaymentRouting.FirstWord` | services/payment-svc/payment-routing.go:26-28 | That operator is the first word in capitals, whatever spaces come before and whatever follows |
| `PaymentRouting.UpperExactly` | services/payment-svc/payment-routing.go:26-28 | Two texts have the same capitals exactly when they differ in ASCII case only |
| `PaymentRouting.EditShows` | services/payment-svc/payment-routing.go:140-286 | A PUT with all of a row's codes shows its aggregator, a DELETE with all of them restores the default, and a row sharing none keeps what it had |
| `PaymentRouting.WholeEditIsShown` | services/payment-svc/payment-routing.go:140-286 | On the screen a whole PUT shows its aggregator as an override, a whole DELETE the default as none, and nothing else of the row changes |
| `PaymentRouting.HalfEditShowsExactly` | services/payment-svc/payment-routing.go:140-286 | Naming one of two codes is enough exactly when the other does not win with something else |
| `PaymentRouting.LastWholeEditWins` | services/payment-svc/payment-routing.go:140-286 | Over every run of such whole edits a row shows what the last of them asked for |
| `PaymentRouting.OperatorSwitchReaches` | services/payment-svc/payment-routing.go:162-188 | A switch reaches exactly the row of its country and operator, however the label is spelt |
| `PaymentRouting.CountrySwitchReaches` | services/payment-svc/payment-routing.go:193-216 | A country switch reaches exactly the rows of that country |
| `XmlEscape.FivePassesAreOne` | frontend/lib/catalog-feed.ts:53-55 | The five replacements in sequence are one pass over the characters |
| `XmlEscape.EscapedIsWellFormed` | frontend/lib/catalog-feed.ts:53-55 | The output has no raw <, >, quote or apostrophe, and every & begins one of the five entities of section 4.6 of XML 1.0 |
| `XmlEscape.NamedEntityDecodes` | frontend/lib/utils.ts:8-28 | A known entity in front of any text is read whole and replaced |
| `XmlEscape.NamesAreHtmls` | frontend/lib/utils.ts:8-12 | Every name of the table decodes to the code point the HTML standard gives it, except that the no-break space becomes an ordinary one |
| `XmlEscape.OtherNames` | frontend/lib/utils.ts:26 | A name outside the table is replaced by what the table inherits under it, or else stays as it stands |
| `XmlEscape.PlainTextStays` | frontend/lib/utils.ts:18-19 | Text without an ampersand decodes to itself |
| `XmlEscape.CodePointsRoundTrip` | frontend/lib/utils.ts:24 | Exactly the code points up to U+10FFFF have UTF-16 units, and writing and reading them are inverse |
| `XmlEscape.DecimalReferenceDecodes` | frontend/lib/utils.ts:20-24 | A decimal reference to any code point, with any leading zeros, decodes to its UTF-16 units in front of any text; a number beyond Unicode throws |
| `XmlEscape.HexReferenceDecodes` | frontend/lib/utils.ts:20-24 | So does a hexadecimal one, with digits of either case |
| `XmlEscape.DecodeUndoesEscape` | frontend/lib/utils.ts:18-28 | Decoding undoes escaping on every string, lone surrogates included |
| `XmlEscape.EscapeInjective` | frontend/lib/catalog-feed.ts:53-55 | Different texts never escape alike |
| `RecentlyViewed.Storage.GetRecentlyViewedIds` | frontend/lib/recently-viewed.ts:20-28 | Reading back through JSON gives the first twenty distinct ids of the views so far, newest first; damaged storage gives none |
| `RecentlyViewed.Storage.RecordRecentlyViewed` | frontend/lib/recently-viewed.ts:8-18 | A view is added to the history the storage stands for; a falsy id writes nothing and damaged storage is started over |
| `RecentlyViewed.StoredIsFirstTwenty` | frontend/lib/recently-viewed.ts:8-18 | After any history the list is the first twenty distinct ids of the views, newest first: cutting at every step loses nothing over cutting once |
| `RecentlyViewed.ViewIsListedFirst` | frontend/lib/recently-viewed.ts:8-18 | Every view is listed first among at most twenty, except that the empty id and 0 are no views |

## Left out

- Cryptography: HMAC is an uninterpreted function, base32 decoding a parameter; nothing is said about forging.
- JSON: an abstract codec, with an inverse where a round trip needs it; numbers are integers, so claims beyond the
  exact range of a float64 are not covered.
- Redis outages and unparsable counters, which the services read as version 0; database errors and rollbacks.
- Races below a handler: a time read before a lock, a refresh overlapping an unblock, two imports at once.
- Go slices sharing their backing array and buckets reached through pointers: buckets are values in a map.
- The guard's event sink, alerts, throttling delay, trusted-proxy parsing and hit counters of blocked addresses.
- Blocklist.NoGapBeforeKnown: says nothing about another guard's push younger than 30 s; `GapExactly` and
  `UnblockReachesOthersExactly` cover what happens then and after an unblock.
- GuardBlocks.TriggerIsRefused: assumes rules that block for at least 30 s, which the shipped rules do.
- GuardBlocks.BurstIsRefused: a trigger takes effect with its hit, although the code handles it in a goroutine.
- CartSync.RoundsConverge: assumes each round is delivered before the next; `OvertakingConvergesExactly` covers rounds
  that overtake one another. Requests that never arrive are not part of this model.
- CartSync.LoginConverges: about the round that carries the merged cart; when the server's cart is empty the page skips
  the merge, and the first round is that of the next change.
- Cart: prices and product data of a line, the reorder and shared-cart links that replace the cart, and a
  variation whose id is 0.
- Navigation: rendering, scrolling, the URL and the forward button; the views reached without the stack are one
  arbitrary step.
- RateLimit.WindowBound: for a key always used with one limit and one window, as every route does.
- Repair: ids of variation rows, pictures, and the keyword tables that recognise category and product names, which
  are parameters; lower case of capitals whose lower case lies above U+00FF, which no name of a size has.
- Repair.CommonFixpoint: for backfills with at least two sizes and a recognised attribute, as both shipped ones are.
- Crawl: the filters of the listing and the shape of its items; a page number beyond 64 bits; the catalogue changing
  during a crawl.
- OrderImport: native orders, order events, addresses, the dry run, fetching pages from WooCommerce and parsing its
  numbers; amounts are exact rather than floating point; the only insert error is a taken reference.
- OrderImport.FirstImportStoresTheOrder: for shops resolved to distinct vendors other than 0, which is what
  `GroupRowExactly` and `LinesKeptExactly` show to be needed.
- PaymentRouting: the provider tables, which are parameters; authorisation types and
  behaviours of providers; upper case of letters outside ASCII; a provider whose label has no word, on which the
  listing panics.
- RecentlyViewed: a stored array whose elements are not texts, and storage the browser refuses to write.
- XmlEscape: names the decoder's table inherits are a parameter; a code point beyond Unicode, which throws, has no
  result.
- Settings store, slugs, thumbnails, shipping rates, sorting and filtering: correct but easy, they would only add
  simple members.
