# Surveys server: a verified model

A Dafny model of the server's login, session and token machinery, its client-metadata cache, its rate limiter, and its
survey access, sharing, naming and validation rules. `dafny verify dfyconfig.toml` checks all of it.

## What is modelled

The core is the store behind logins. One login at the identity provider is a row of `idp_sessions`; browser sessions,
OAuth codes and MCP tokens point to it. It is described twice, and the two descriptions are tied together.

**One request at a time** (`tables`, `oidc`, `cimd`, `auth`, `oauth`, `runs`). Each operation is a function on the database
state: `Auth.FreshLogin`, `Auth.ResolveSession`, `Auth.PurgeAuth`, `OAuth.ExchangeCode` and so on. `Runs.Step` puts them
together and `Runs.Run` is any sequence of steps from the empty database, with a clock that never runs back, ids that are
never issued twice, and a provider and metadata hosts that answer anything. `app` holds the same operations as methods of a
class over the tables, statement by statement, each proved to do exactly what its function says. `invariants`, `grants`,
`provenance`, `events` and `purge` hold what is true of all runs; `grants`, `answers` and `events` say of each kind of request
and event when it is answered how, and what it leaves behind, in the stored rows and the provider's own words.

**Overlapping requests** (`threads`, `interleavings`, `schedules`). The database has no transactions, so here every SQL
statement, lock operation and provider call of `freshIdpSession` and `endIdpSessions` is a step of its own, and any request
may take the next one. The provider rotates refresh tokens and kills a grant when a token is used again. `schedules` proves
that a request nobody disturbs does exactly what `Auth.FreshLogin` says.

**Overlapping exchanges** (`exchanges`, `overlaps`, `lineage`, `dangling`, `twice`, `undisturbed`). The same for approvals and
for the two exchanges of the token endpoint, joined with the steps above: SELECT, UPDATE, the check of the login, the INSERTs
and DELETEs. `overlaps` says exactly when two of them both succeed, `lineage` where every token comes from, `dangling` when a
token or code outlives its login, and `twice` gives stories from the empty database in which these overlaps happen.
`undisturbed` proves that a request nobody disturbs does exactly what the functions of `oauth` say. `latelogout` and
`examples` hold further runs.

Beside the core: `ratelimit` (the limiter, proved against a function on tables) and `windows` (what that function lets
through), `slug` (names), `forms` (visibility, shares, creation, deletion), `submission` (validation), `urls` (redirect URIs)
and `text` (trimming).

## Found on the way

- `purgeAuth` can be observed in one way: `POST /logout` with a session that has expired but not been deleted ends the login
  behind it and the tokens bound to that login; once the row is purged, the same logout ends nothing
  (`Purge.LogoutTellsThemApart` and `Purge.FirstLateLogoutShows` say exactly when, at any later point;
  `LateLogout.LateLogoutHappens` is a run that gets there).
- `README.md:53-54` of the repository says every redirect URI is without credentials and fragment. A presented loopback
  redirect is matched by host and path only, so one with credentials or a fragment is accepted (`Urls.AllowedIsValidExactly`,
  `Urls.LoopbackDetailsSlipThrough`). It still goes to this machine (`Urls.AllowedIsSafe`).
- `oauth.go:335-337` says that after `temporarily_unavailable` the client may retry. That holds for refresh tokens
  (`Grants.OutageKeepsRefreshToken`); an authorization code is used up before the provider is asked
  (`Grants.OutageBurnsCode`, `Grants.BurntForGood`).
- A forced refresh is undone by a refresh of the same login that already has its answer, if that answer lives longer than
  15 s (`Schedules.StraddlerUndoesForce`, `Schedules.ForceUndone`); otherwise it never is (`Interleavings.ForcedIsRefreshed`).
- The UPDATE that uses up a code, the UPDATE that revokes a refresh token and the DELETE of an authorization request are
  unconditional (`oauth.go:212`, `276`, `329`). So two requests whose SELECTs both come before the other's write both succeed,
  and only those (`Overlaps.BothRedeem`, `Overlaps.BothRenew`, `Overlaps.BothApprove`; `Twice` has a run of each).
- Tokens can be inserted after their login was ended (`Twice.TokenOutlivesLogin`, `Dangling.DanglesExactly`); they are never
  of use, since no request that starts then is let in (`Interleavings.EndedIsEnded`).
- The rate limiter reads the clock before it takes its mutex (`ratelimit.go:24-26`), so a late reader can store an old stamp
  last. With readings at most d behind, ten hits are guaranteed for closed windows of up to 60 s - 2d, and 60 s - d while
  nothing is evicted; no longer window is safe (`Windows.WindowIsExact`, `Windows.WindowIsExactWithoutEviction`). Eviction
  costs the second d because it looks at the last stamp, which need not be the newest (`Windows.ElevenInLess`).
- `purgeAuth` deletes logins but not their entries in `refreshLocks` (`auth.go:413-418`), unlike `endIdpSessions`.
- A survey whose deletion date lies before 1970 is hidden but never deleted (`Forms.FormStore.PurgeDueForms`), and at the very
  millisecond of its deletion date a survey is no longer listed but still opens (`Forms.ListVersusOpen`).

## Model

| member | source | states |
|---|---|---|
| Threads.PresentsTheCurrentToken | auth.go:292-343 | In every interleaving, a request at the provider presents its current refresh token exactly when no rotated token of that login was lost on the way. |
| Threads.GrantsSurvive | oidc.go:209-239 | In every interleaving, a rotating provider that kills a grant on reuse never has cause to: a grant dies only by revocation or after a lost rotation. |
| Threads.NoParallelRefresh | auth.go:262-303 | In every interleaving, no two requests are at the provider for the same login, although ending a login drops its lock from the map under a holder. |
| Threads.OneAtTheProvider | auth.go:262-295 | The reason: two requests at the provider for one login would hold one mutex. |
| Threads.ExclusiveKept | auth.go:376-390 | Every statement keeps: while a login exists, whoever has a mutex for it has the one in the map; requests at the provider share it even after the login is gone. |
| Threads.CurrentKept | auth.go:296-332 | Every statement keeps: the row holds the current token, or the one request that got the new one holds the lock; once a token is lost, it never will again. |
| Threads.AlwaysSafe | auth.go:277-344 | Both hold in every world of every interleaving. |
| Threads.VerdictFacts | oidc.go:209-239 | Whatever the userinfo endpoint adds, an accepted refresh carries the rotated token, or the one presented when none was rotated. |
| Threads.AnswerFacts | oidc.go:158-181 | What a provider that rotates may answer: tokens, and a new refresh token, only for the live, current one. |
| Interleavings.EndedIsEnded | auth.go:277-303 | In every interleaving, whoever first looks at a login after its row was deleted is refused, at once and for good, despite late UPDATEs, late token inserts and unfinished deletions. |
| Interleavings.GoneForGood | auth.go:330-332 | A deleted login row never comes back: an UPDATE in flight finds no row. |
| Interleavings.LoginStepByStep | auth.go:349-395 | What one statement can make of one login: nothing, its end, a forced expiry, or the answer in flight. |
| Interleavings.ForcedIsRefreshed | auth.go:349-357 | In every interleaving in which no refresh of the login straddles the force, whoever first looks at it afterwards and is let in has the teams of an answer the provider gave after the force. With clocks that never run back, an answer that lives 15 s or less does not straddle. |
| Interleavings.TeamsAreFresh | auth.go:277-344 | In every interleaving, whoever is let in got the row either by storing the answer of its own refresh, or by loading it when it was refreshed less than the refresh interval minus 15 s before. |
| Interleavings.AlwaysBounded | auth.go:210-218 | In every interleaving, no stored login is good for longer than the refresh interval after its last refresh. |
| Interleavings.NobodyWithoutTeam | auth.go:316-320 | Where a team is required, no request of any interleaving is let in without one. |
| Interleavings.ThreadStep | auth.go:277-344 | A step starts at most the request it names and leaves finished ones alone. |
| Schedules.StraddlerUndoesForce | auth.go:329-332 | The other half, for every straddler and every later time: its answer is written over the forced expiry, and the next request is let in with the teams in flight, without anyone asking the provider. |
| Schedules.ForceUndone | auth.go:329-332 | A whole interleaving from the empty database in which that happens, with a clock that never runs back. |
| Schedules.AloneIsFreshLogin | auth.go:277-344 | An undisturbed request does to the database, statement by statement, exactly what the one-step specification says, and answers the same. |
| Schedules.EndingAlone | auth.go:362-395 | So does an undisturbed endIdpSessions, over any number of logins. |
| Exchanges.StoryIsInterleaving | oauth.go:338-353 | The steps of approvals and token exchanges leave the refresh protocol alone: any story of both is an interleaving of the latter, so all that is proved of those holds here. |
| Overlaps.RedeemsExactly | oauth.go:248-282 | In every interleaving, a finished exchange of a code issues tokens if and only if its SELECT found a fitting code before any UPDATE marked it, and its login was found alive. |
| Overlaps.RenewsExactly | oauth.go:304-332 | The same for a refresh token and the UPDATE that revokes it. |
| Overlaps.ApprovesExactly | oauth.go:189-214 | A finished approval sends a code if and only if its SELECT found the request, shown to this session, before any DELETE. |
| Overlaps.BothRedeem | oauth.go:248-282 | Two exchanges of one code, which fits both and which no third one uses, both issue tokens if and only if neither SELECT comes after the other's UPDATE and both logins are found alive. |
| Overlaps.BothRenew | oauth.go:304-332 | The same for two rotations of one refresh token that nothing else revokes. |
| Overlaps.BothApprove | oauth.go:189-214 | Two approvals of one request, by its session and with nothing else deleting it, both send a code if and only if neither SELECT comes after the other's DELETE. |
| Overlaps.DeniedStays | oauth_routes.go:123-131 | In every interleaving, no approval whose SELECT comes after the DELETE of a denial sends a code. |
| Overlaps.AlwaysMarked | oauth.go:276-332 | In every interleaving: a stored code is used, a stored token revoked, a request gone, exactly when some step said so. |
| Twice.RequestGivesTwoCodes | oauth.go:189-214 | From the empty database: one request, approved twice at once, gives two codes. |
| Twice.CodeGivesTwoPairs | oauth.go:248-282 | From the empty database: one code, exchanged twice at once, gives two pairs of tokens. |
| Twice.TokenGivesTwoPairs | oauth.go:304-332 | From the empty database: one refresh token, exchanged twice at once, gives two live ones. |
| Twice.TokenOutlivesLogin | oauth.go:279-282 | From the empty database: a login ended between the check and the INSERT leaves a token behind. |
| Dangling.DanglesOnlyLate | oauth.go:279-282 | In every interleaving, an unrevoked token without a login was inserted after the tokens of that login had been deleted, or its row purged. |
| Dangling.CodesDangleOnlyLate | oauth.go:202-208 | The same of a code, which an approval inserts. |
| Dangling.DanglesExactly | oauth.go:279-282 | While no deletion of its login is half way through, an unrevoked token has no login if and only if it was inserted that late. |
| Dangling.CodesDangleExactly | oauth.go:202-208 | The same of codes. |
| Dangling.WipedGoes | auth.go:376-390 | In every interleaving, once the tokens or codes of a login were deleted for its end, the login is gone or that deletion is still on its way to the row. |
| Lineage.StoryTracesBack | oauth.go:101-156 | Every token of every interleaving: a client asked, the page for it was shown to a session, that session approved as the user of a login found alive, and the same client redeemed the code with the verifier of its own challenge; client, subject, scope and login are those of that request and login. |
| Lineage.CodeTracesBack | oauth.go:189-214 | The same of every code, up to its approval. |
| Lineage.TokenRoot | oauth.go:232-333 | In every interleaving, a token goes back through any number of renewals to the SELECT of one code with the same client, subject, scope and login. |
| Undisturbed.RedeemAlone | oauth.go:248-282 | An undisturbed exchange does to the database, statement by statement, exactly what the one-step specification says, and is answered the same. |
| Undisturbed.RenewAlone | oauth.go:304-332 | So does an undisturbed rotation of a refresh token. |
| Undisturbed.ApproveAlone | oauth.go:189-214 | So does an undisturbed approval, also of an expired request. |
| Invariants.RunKeepsInv | db.go:16-150 | Every state of every run satisfies all invariants: sessions, codes and unrevoked tokens point to an existing login of the same subject; every login has a team where one is required; every stored redirect is safe; ids are never reused; lifetimes are bounded. |
| Invariants.StepKeepsInv | auth.go:262-501 | Every request, event and clean-up keeps them. |
| Invariants.EndingIsExact | auth.go:359-395 | Ending removes exactly the matching logins and what is bound to them, and nothing else. |
| Invariants.SubjectCheckNeverFires | mcp.go:148-168 | In a reachable state the last comparison of bearerContext never fails. |
| Invariants.TeamsAreFresh | auth.go:206-233 | For requests that do not overlap: teams handed to a request are what the provider said in this very call, or were read less than the refresh interval minus 15 s ago. |
| Invariants.ForcedIsDue | auth.go:346-357 | The next use of a forced login is answered by the provider, or refused. |
| Invariants.FreshLoginFacts | auth.go:277-344 | A freshness check refreshes this login or ends it with its dependants, and touches nothing else. |
| Invariants.ContextFacts | auth.go:422-435 | A login that passes its freshness check always yields a user; the missing-user branch is unreachable. |
| Invariants.ResolveSessionFacts | auth.go:438-467 | A request let in by a session rides on the login that session is bound to, as its subject. |
| Auth.ExpiryBounded | auth.go:210-218 | No answer stretches a login beyond the refresh interval, even when the seconds wrap int64; without a wrap the lifetime is the smaller of the two. |
| Auth.EndTwice | auth.go:376-390 | Ending logins one after the other is ending them all. |
| Grants.FreshExactly | auth.go:277-344 | A login passes its check, is ended, or neither: exactly when, by its row and by what the token endpoint, the ID token and userinfo say. |
| Grants.FreshDoes | auth.go:321-344 | What each of the three does: every column of the login and of its user's row after a refresh, the login and its dependants gone, or no change at all. |
| Grants.VisitExactly | auth.go:438-467 | A session lets in if and only if it exists, has not expired, and the provider vouches for its login; as whom, with which teams and address. |
| Grants.CallExactly | mcp.go:148-168 | A bearer is let in if and only if the token is an unrevoked, unexpired access token whose login the provider vouches for; as whom, with which teams and address. |
| Grants.OutageKeepsRefreshToken | oauth.go:325-332 | temporarily_unavailable costs a client no refresh token and ends no login. |
| Grants.OutageBurnsCode | oauth.go:276-282 | It does cost the code: the state it leaves refuses that code. |
| Grants.BurntForGood | oauth.go:276-282 | In every run: after an exchange answered with temporarily_unavailable, every later exchange of that code is refused. |
| Answers.LoginExactly | auth.go:469-501 | A login is refused, and nothing is stored, unless there is an ID token for this very attempt, userinfo of the same subject where that has to be asked, and a team if one is required; else user, login and session are stored with every column as the answer has it. |
| Answers.VisitAnswer | auth.go:422-467 | Each answer to a browser session and what it leaves behind, for every stored row and every answer of the provider: the user, address and teams; signed out, and the session deleted; or the provider is down, and nothing changes. |
| Answers.CallAnswer | mcp.go:148-168 | The same for an access token. |
| Answers.NobodyWithoutTeam | auth.go:316-320 | In every run in which a team is required, nobody is ever let in without one. |
| Answers.ClientExactly | cimd.go:219-252 | Which client is served and what is kept of it: memory, a document that names itself, lists its own origin or this machine only and wants no secret, the last good copy of less than seven days, or none. |
| Answers.TrustedExactly | cimd.go:157-178 | The checks accept exactly such documents. |
| Answers.BeginExactly | oauth.go:101-156 | A request is stored as asked if and only if the client is known, the redirect fits and the parameters are in order; else the first thing that is wrong is answered. |
| Answers.ShowExactly | oauth_routes.go:183-192 | The page is shown if and only if the session is signed in and the request pending, and binds the request to that session. |
| Answers.ApproveExactly | oauth.go:189-214 | A code is sent if and only if the session is signed in, the request pending and shown to this very session; each other answer with its condition. |
| Answers.RedeemExactly | oauth.go:232-283 | Each answer to a code: tokens for a redeemable one whose login the provider vouches for; it is used up as soon as it is found redeemable, and nothing happens otherwise. |
| Answers.RenewExactly | oauth.go:290-333 | Each answer to a refresh token: revoked and replaced only once its login was confirmed. |
| Answers.DisconnectExactly | oauth.go:444-453 | A signed-in user disconnects exactly the tokens and codes of that client. |
| Answers.LogoutExactly | web_auth.go:131-145 | A logout ends the login of its session with all that is bound to it, and nothing else. |
| Answers.PurgeExactly | auth.go:405-412 | The clean-up keeps exactly the persisted clients younger than seven days or still named, and the cache entries not expired. |
| Provenance.TokenTracesBack | oauth.go:101-156 | Every token of every run of requests that do not overlap: a client asked, the consent page naming that client was shown to a session, the same session approved, and the same client redeemed the code with the verifier of its own challenge; subject and login are those of that session. |
| Provenance.TokenOrigin | oauth.go:232-333 | A token goes back, through any number of renewals, to the redemption of one code with the same client, subject, scope and login. |
| Provenance.ConsentOrigin | oauth_routes.go:183-192 | A bound request goes back to a consent page shown to that very session, after the request was made. |
| Provenance.CodeOrigin | oauth.go:189-214 | A code goes back to the approval that made it. |
| Provenance.RequestOrigin | oauth.go:101-156 | A request keeps the client, redirect and challenge it was made with. |
| Provenance.DenialHolds | oauth_routes.go:123-131 | In every run, no approval of a denied request sends a code, whoever approves and whenever. |
| Provenance.DenyExactly | oauth_routes.go:123-131 | A denial removes that request and touches nothing else. |
| Provenance.OneCodePerRequest | oauth.go:189-214 | In every run of requests that do not overlap, one authorization request gives at most one code. |
| Provenance.OneRedemptionPerCode | oauth.go:248-282 | In every run of requests that do not overlap, one code is redeemed at most once. |
| Provenance.OneLiveRefreshPerCode | oauth.go:290-333 | In every run of requests that do not overlap, of all refresh tokens descending from one code at most one is unrevoked. |
| Provenance.StepHands | oauth_routes.go:108-131 | Each step hands out nothing, or exactly one of: a request, a consent page, a code, tokens for a code, tokens for a refresh token. |
| Provenance.ApproveDoes | oauth_routes.go:108-121 | An approval yields a code only for a request shown to the approving session, with that request's client, redirect and challenge. |
| Purge.PurgeAtAnyPoint | auth.go:399-419 | After a clean-up at any point of any run, every later request gets the answer it would have got without it, and afterwards the same credentials work, unless someone logs out with a session that had expired by the clean-up while something bound to its login still works at that moment. |
| Purge.PurgeIsUnseen | auth.go:399-419 | The same from every state that satisfies the invariants. |
| Purge.StepBoth | auth.go:438-467 | The simulation: one step of a cleaned and an uncleaned server gives the same answer and leaves them alike, but for such a logout. |
| Purge.PurgeIsSim | auth.go:399-419 | Cleaning up starts the simulation. |
| Purge.PurgeBoth | auth.go:399-419 | Cleaning both up keeps it. |
| Purge.LogoutTellsThemApart | web_auth.go:131-145 | The exception is exact, for any two servers the simulation relates and any later time: a logout leaves different credentials working if and only if only the uncleaned server has the session and something bound to its login still works. |
| Purge.FirstLateLogoutShows | web_auth.go:131-145 | So in every run: a logout after a clean-up and any continuation without such a logout makes a difference if and only if it is one. |
| Purge.LateLogoutIsVisible | web_auth.go:131-145 | And a client sees it: its access token is refused on one server and accepted on the other. |
| LateLogout.LateLogoutHappens | web_auth.go:131-145 | A whole run from the empty database (login, consent, tokens, a renewal a week later) that ends in a state where this shows. |
| Purge.NoOrphansLeft | auth.go:397-418 | After a clean-up, every login older than a code's life still has a live session, token or code. |
| Cimd.ResolvedClient | cimd.go:219-252 | Whatever is served lists only safe redirects and is younger than 7 days and 1 minute; cache and persisted copies stay so. |
| Cimd.PurgeKeepsUsableClients | auth.go:405-411 | Cleaning up never deletes a copy that a later request could have been served from. |
| Cimd.CacheTtl | cimd.go:194-214 | The loop over the header's directives: the last one that says anything wins, clamped to 1 minute to 24 hours, also when max-age wraps. |
| Cimd.TtlMeaning | cimd.go:194-214 | no-store and no-cache keep a document for a minute, max-age for its seconds within a minute and a day, silence for an hour. |
| Urls.RedirectUriAllowed | oauth.go:524-542 | The loop finds an exact match, or a loopback match that ignores the port. |
| Urls.AllowedIsSafe | oauth.go:519-542 | An accepted redirect is same-origin with the client or loopback, as the registered ones are. |
| Urls.AllowedIsValidExactly | oauth.go:473-489 | It meets all rules for registered redirects if and only if it has neither credentials nor a '#'. |
| Urls.LoopbackDetailsSlipThrough | oauth.go:537-539 | A redirect with credentials and a fragment that is accepted. |
| Server.App.CheckDocument | cimd.go:157-178 | The checks on a fetched document, redirect by redirect, accept exactly the valid ones. |
| Server.App.ResolveClient | cimd.go:219-252 | Memory, then a fetch, then the persisted copy: the new cache and table, and the client served. |
| Server.App.EvictExpired | cimd.go:53-62 | The loop removes exactly the expired entries. |
| Server.App.EndIdpSessions | auth.go:362-395 | The loop over the selected ids ends exactly those logins, forgets their mutexes, and counts them. |
| Server.App.ForceRefresh | auth.go:349-357 | Each matching login is due at any later time, its other columns unchanged; every other login is untouched; the matches are counted. |
| Server.App.FreshIdpSession | auth.go:277-344 | First load, mutex, second load, provider, UPDATEs, in this order and on every branch: state and answer are those of the freshness specification, and the mutex is given back. The login is alive exactly if the provider need not be asked or vouches for it, and ended exactly if it has to be confirmed and the provider refuses, names somebody else, or leaves no required team. |
| Server.App.LoginViaOidc | auth.go:469-501 | User, address, login, session, in this order; a login without an identity or without a required team is refused and stores nothing at all. |
| Server.App.LogoutSession | web_auth.go:131-145 | The session goes, and the login behind it with everything bound to it; the refresh token read before that is what is to be revoked at the provider. |
| Server.App.PurgeAuth | auth.go:399-419 | Exactly the expired sessions, tokens, codes and requests go; of the logins exactly those that are older than a code's life and that nothing left refers to. |
| Server.App.HandleZitadelEvent | zitadel_events.go:116-160 | Exactly the logins the event speaks of end, with what is bound to them; exactly those whose user changed are due; both are counted, and nothing else changes. What it does is a step of a run and keeps the invariants of all runs. |
| Server.App.HandleBackchannelLogout | web_auth.go:207-215 | Selection by session and subject, by session, or by subject; likewise a step of a run that keeps the invariants. |
| Server.App.ExchangeAuthorizationCode | oauth.go:232-283 | The code is marked before the login is checked, and tokens are inserted last: new state and answer on every branch. |
| Server.App.ExchangeRefreshToken | oauth.go:290-333 | The login is checked before the token is revoked, and tokens are inserted last: new state and answer on every branch. |
| Server.App.RevokeClient | oauth.go:444-453 | No token or code of this user and client works any more; every other token and code is untouched. |
| Server.App.Serve | oauth_routes.go:108-171 | Any request or clean-up, and anything a webhook or logout token amounts to, is one step of a run and keeps the invariants of all runs; a denial removes the request. Module Answers spells out the step of each kind of request. |
| Events.EventExactly | zitadel_events.go:116-160 | Every event, from every state: which logins go, which are due, what goes with them and what stays, by kind of event and the ids it names. |
| Events.TerminatedIsOut | zitadel_events.go:130-135 | The end of a provider session ends exactly the logins made in it, with all that is bound to them. |
| Events.LockedIsOut | zitadel_events.go:124-148 | A user locked, removed, signed out or stripped of a grant at the provider has no login, session, code or unrevoked token left. |
| Events.OthersStay | zitadel_events.go:116-160 | An event leaves every login it does not name by subject or session, with all that is bound to it; at most it has it refreshed. |
| Events.ForeignIsIgnored | zitadel_events.go:139-144 | A grant event of a project that is not configured changes nothing. |
| Events.ChangedIsReread | zitadel_events.go:128-154 | After a change of the address or of a grant, or an event that may concern anybody, the next request of each such login is let in if and only if the provider confirms the user, and with what it says. |
| Events.BackchannelIsExact | web_auth.go:207-215 | A logout token ends exactly the logins it speaks of, with all that is bound to them. |
| Oidc.TeamsFromGroups | oidc.go:348-373 | The loop with its index map merges repeated teams in place. |
| Oidc.GroupTeamsMeaning | config.go:197-216 | Whatever the order: a member if some group names the team, a maintainer if some group says so. |
| Oidc.NoTeams | oidc.go:348-373 | There is no team at all exactly if no group names one; a group that is nothing but the prefix counts for nothing. |
| Oidc.ZitadelTeams | zitadel.go:46-73 | The loops over projects and roles, and whether any project claim was present. |
| Oidc.ProjectTeamsMeaning | zitadel.go:46-73 | Any role in a configured project is membership of its team, and nothing else is; the first project that gives the team decides who maintains it. |
| Oidc.SplitGroupMeaning | config.go:197-216 | A group makes maintainers of a team if it is prefix, name and suffix, and members if it is prefix and name alone; the prefix may be missing. |
| Oidc.RefreshOutcome | oidc.go:209-308 | A refresh is accepted, rejected or left open: exactly when, for every answer of the token endpoint, every ID token and every answer of userinfo. |
| Oidc.RefreshTells | oidc.go:272-308 | Teams, address and name are the ID token's where it has them, else those of userinfo; the subject never changes, and the old refresh token is kept when none was rotated. |
| Oidc.ExchangeOutcome | oidc.go:183-206 | A login needs the tokens, an ID token with a subject and this attempt's nonce, and userinfo of the same subject where that has to be asked; the identity is what they say. |
| RateLimit.RateLimiter.Allow | ratelimit.go:23-49 | For calls in the order of the mutex, with any clock readings: the answer is whether fewer than ten stamps are left, and the table is the one the value specification says, slice by slice. |
| RateLimit.RateLimiter.Evict | ratelimit.go:29-35 | Above 10000 keys, exactly the keys go whose slice is empty or whose last stamp is too old. |
| RateLimit.RateLimiter.Prune | ratelimit.go:37-42 | The slice under a key keeps exactly the stamps at or after the cutoff, in its own array. |
| RateLimit.Compact | ratelimit.go:37-42 | The filter in place: the kept time stamps, in order, at the front of the same array. |
| RateLimit.Append | ratelimit.go:47-47 | Go's append: in place while there is room, else in a copy. |
| Windows.WindowIsExact | ratelimit.go:23-49 | When no reading is more than d behind an earlier one, every closed window of a given length holds at most ten let-through hits of a key if and only if the length is at most 60 s - 2d. |
| Windows.WindowIsExactWithoutEviction | ratelimit.go:23-49 | While the map never evicts, if and only if the length is at most 60 s - d. |
| Windows.AtMostTen | ratelimit.go:16-20 | Any closed window that is short enough holds at most ten let-through hits. |
| Windows.ElevenInAMinute | ratelimit.go:24-26 | Two overlapping calls whose readings are 1 ms apart and swap at the mutex: eleven hits in a closed minute. |
| Windows.ElevenInLess | ratelimit.go:29-35 | With eviction the same lag lets eleven hits into a closed window of 60 s - 1 ms. |
| Windows.AscendingIsExact | ratelimit.go:23-49 | With readings that never run back, a call passes if and only if fewer than ten hits of its key passed in the last minute, pruning and eviction notwithstanding. |
| Windows.NeverStricter | ratelimit.go:23-49 | Whatever the readings, a call with fewer than ten hits in its window passes. |
| Windows.Remembered | ratelimit.go:29-42 | What pruning and eviction forget makes no difference to windows later than every reading allows. |
| Slug.Slugify | db.go:248-276 | Folding, the builder loop, the trims and the cut; the result is always a name. |
| Slug.Build | db.go:254-267 | The builder loop with its dash flag squeezes every run of other characters to one dash. |
| Slug.SlugIsWords | db.go:254-276 | The name is the words of the folded text joined by single dashes, cut at 60 characters; the fallback if there are none. |
| Slug.FoldedLetterwise | db.go:248-253 | Folding drops outer white space, then lowers and spells out each character by itself. |
| Slug.SlugShape | db.go:248-276 | Always 1 to 60 characters a-z, 0-9 and dash, with no outer or doubled dash. |
| Slug.SlugifyIdempotent | db.go:248-276 | Idempotent, through folding, trimming and truncation. |
| Slug.SlugKeepsLetters | db.go:248-276 | No letter or digit is lost, invented or moved unless the text is cut. |
| Slug.UniqueRef | db.go:229-246 | The name returned is the first free candidate whenever fewer than 9998 other forms exist; only when all are taken does the random tail come in. |
| Slug.SomeCandidateFree | db.go:229-246 | Pigeonhole over 9998 distinct candidates. |
| Slug.CandidateInjective | db.go:233-244 | Candidates differ pairwise. |
| Slug.DecimalReads | db.go:233-244 | The number in a candidate is written in digits that read back as it. |
| Slug.DecimalInjective | db.go:233-244 | So different numbers are written differently. |
| Forms.PrefilterLosesNothing | forms.go:282-325 | The SQL prefilter keeps every survey the access rule would show. |
| Forms.ListVersusOpen | tools.go:435-447 | A listed survey opens by id; list and open differ exactly when now is delete_at. |
| Forms.GroupsAccess | auth.go:73-106 | With teams from groups, who opens, manages and lists a survey, and what each other answer means: by creator, team, groups, shared address and deletion date. |
| Forms.ProjectsAccess | tools.go:414-447 | The same with teams from project roles. |
| Forms.ManagersView | auth.go:73-106 | Whoever may change a survey may see it. |
| Forms.GroupsDecide | auth.go:35-54 | Membership and maintainership are what the provider's groups say. |
| Forms.ProjectsDecide | auth.go:35-54 | Or its project roles: the first project that gives the team decides who maintains it. |
| Forms.FormStore.ListVisibleForms | forms.go:282-325 | Exactly the visible surveys not yet due, each once, newest first. |
| Forms.NormalizeShareEmails | forms.go:332-352 | Distinct normalised addresses, or an error for an implausible address or more than 100. |
| Forms.CountAfter | forms.go:376-386 | The count compared with the cap is the size of the union. |
| Forms.FormStore.AddShares | forms.go:372-395 | All addresses or none; none exactly when the union exceeds 100. |
| Forms.FormStore.RemoveShares | forms.go:417-424 | Exactly these addresses go. |
| Forms.FormStore.ChangeShares | forms.go:399-415 | (old - remove) + add on success, no change on an invalid address, old - remove beyond the cap; no survey ever has more than 100. |
| Forms.CapKept | forms.go:329-395 | One survey's change leaves the others' shares alone and the cap intact. |
| Forms.FormStore.CreateForm | forms.go:166-227 | Each refusal with its exact condition and in its order; else the row with every column, a deletion date under retention, its shares, and the first free name for the slug of ref or title; it succeeds below 9998 forms. |
| Forms.FormStore.UpdateForm | forms.go:436-480 | Each refusal with its exact condition and in its order, and no change; else every patched column and no other; a patched name is the first free one for its slug. |
| Forms.FormStore.DeleteForm | forms.go:492-499 | The form with its shares and submissions, and nothing else. |
| Forms.FormStore.PurgeDueForms | forms.go:484-490 | Exactly the due surveys with a positive date go, with their shares and submissions. |
| Forms.FormStore.PostForm | public.go:215-267 | A submission is stored if and only if the survey is there, not due, active and unexpired, the sender no bot and new where that matters, and no field is complained about; then with the validated values, and otherwise nothing changes. |
| Forms.FormStore.DeleteSubmission | tools.go:377-399 | A submission goes if and only if the user may manage its survey, which is not past its deletion date. |
| Forms.SweepIsUnseen | forms.go:251-277 | The sweeper changes no answer: what it deletes could not be opened or listed any more. |
| Forms.RefStaysUnique | forms.go:166-227 | A free name keeps names unique. |
| Submission.ValidateFieldDefs | forms.go:73-98 | Accepts exactly the well-formed definitions, and names the first fault of the first bad field. |
| Submission.ValidateSubmission | forms.go:100-152 | The loop fills the two maps field by field. |
| Submission.ValidateField | forms.go:103-150 | What one field puts into them, on every branch. |
| Submission.AnswerDecides | forms.go:100-152 | An acceptable answer is stored, trimmed; any other is refused for the first thing wrong with it; a missing one is an error exactly where one is required; a box is always stored. |
| Submission.SubmissionSound | forms.go:100-152 | Every required field is in the output or the errors; only acceptable values are stored. |
| Submission.RevalidationIsStable | forms.go:100-152 | Validating a clean result again returns the same values and no errors. |
| Submission.FieldDecides | forms.go:100-152 | With distinct keys each field alone decides its entries. |
| Submission.KeysOnly | forms.go:100-152 | Nothing is stored under a key no field has. |

## Left out

- Provenance.OneRedemptionPerCode: for requests that do not overlap; Overlaps.BothRedeem has the others.
- Provenance.OneLiveRefreshPerCode: for requests that do not overlap; Overlaps.BothRenew has the others.
- Provenance.OneCodePerRequest: for requests that do not overlap; Overlaps.BothApprove has the others.
- Provenance.DenialHolds: for requests that do not overlap; Overlaps.DeniedStays has the others.
- Answers.NobodyWithoutTeam: for requests that do not overlap; Interleavings.NobodyWithoutTeam has the others.
- Invariants.TeamsAreFresh: for requests that do not overlap; Interleavings.TeamsAreFresh has the others.
- Provenance.TokenTracesBack: for requests that do not overlap; Lineage.StoryTracesBack has the others.
- Overlaps.RedeemsExactly: from the SELECT of the code on; the client was looked up before and found.
- Overlaps.RenewsExactly: from the SELECT of the token on; the client was looked up before and found.
- Undisturbed.RedeemAlone: from the SELECT of the code on, likewise.
- Interleavings.ForcedIsRefreshed: not claimed when a refresh of the login straddles the force; it is then false.
- Purge.PurgeAtAnyPoint: answers are success, user, teams, ids and error codes; the counts that webhooks report are not answers.
- Cimd.ResolvedClient: times are whole milliseconds, where the cache keeps finer ones; a document fetched but not persisted
  because the database failed is not modelled.
- Forms.FormStore.CreateForm: the random slug of the public link and the JSON form of fields.
- Forms.FormStore.PostForm: finds the survey by its id; the rate limiter is module RateLimit; sender data are left out.
- Slug.SlugifyIdempotent: lower-casing is any function on characters that keeps a-z, 0-9 and dash.
- Server.App.Serve: takes one clock reading per request, where the code reads the clock again for each check.
- Server.App.FreshIdpSession: runs undisturbed, so no other request holds a mutex; module Threads has the waiting.
- Events.ChangedIsReread: for requests that do not overlap; module Interleavings has the other case.
- Submission.ValidateSubmission: the address pattern and the number parser are arbitrary predicates; message texts are left out.
- Statements that fail, the process crashing between two statements, and the database's own consistency.
- Signatures, ID token and logout token validation, webhook signatures, SHA-256 and randomness: the challenge of a verifier is
  an arbitrary function, a token is valid or not, ids are fresh.
- verifiedEmail: an address claim is absent, verified or not.
- URL and JSON parsing, Unicode case folding of host names, the query part of URLs beyond equality.
- Fetching metadata documents: DNS, address blocking, redirects, size and time limits, grant_types.
- Server.App.LogoutSession: returns the refresh token to revoke; the call to the provider that revokes it is left out.
- HTTP routing, cookies, pages, the JSON-RPC envelope, CSV export, health checks, logging, last_seen_at and user agents.
- Rows from before logins were recorded, which have no login to point to.
