# Verified model of nass

nass is a self-hosted front door: it signs users in, issues OpenID Connect tokens to
the apps behind it, and routes requests to those apps by host name. This project models
the five parts of it that keep state under concurrent use, in Dafny 4.11, and proves what
they are for. Check it with `dafny verify dfyconfig.toml --resource-limit 2000000 --verification-time-limit 0`.

**The token store** (`schema`, `calls`, `interleaving`, `stores`). The SQLite tables are a
record of maps; one function models one SQL statement, with its PRIMARY KEY, UNIQUE and
FOREIGN KEY errors and its cascades. A `Call` is an operation in progress; `Step` runs its
next statement or transaction and `Run` runs a call with nothing in between. A `World` is
the tables, any number of calls in progress and a history, and a sequence of events is any
interleaving of their statements. The classes in `stores` are the Go methods; each keeps
the tables sound, is proved to do what `Run` does, and says in terms of rows what it
accepts (methods of one statement have no row in the table below).

Over every interleaving: keys are never reused and a row that is gone stays gone
(`identities`), rotation (`grants`, `inheritance`), sign-out and removal, with what calls in
progress can still do after them (`signout`, `removal`), revocation (`revocation`, `races`),
codes (`codes`), foreign keys (`integrity`), and who can notice a purge whose statements
fall among those of other calls (`purging` statement by statement, `twins` and `simulation`
for two sites side by side, `grace` for the result). Over runs in which calls do not
overlap: the tie between access and refresh tokens (`ties`) and flows from one operation
to the next (`flows`). What each statement inserts and deletes is told by rows in `effects`.

**The router** (`routes`, `reconcile`, `dispatch`). `Sync` patches the live map while requests read it.

**The INI patcher** (`ini`, `ini_meaning`). `PatchConf` on lines of text, judged by a reader of INI files.

**The login throttle** (`throttle`, `budgets`, `attempts`). A trimmed and swept cache,
judged by the full record of failures, and attempts from both login forms interleaved.

**The cookie stripper** (`cookies`), over laws of splitting, joining and trimming (`text`).

Three findings, each with its exact condition and a run that shows it:

- A purge goes unnoticed exactly when its cutoff stays 25 minutes and one second (less a
  nanosecond) behind the clock (`Grace.UnobservableExactly`, whose proof holds the run).
  Staying merely behind the clock is not enough: deleting an expired code frees the place
  that its request, which lives longer, has for one code. `nass serve` uses a day.
  What cannot be noticed is stated of rows that someone can still find. Saving a code,
  completing a request and revoking a token also answer about rows that expired, although
  internal/cli/serve.go:123-124 says that such rows are never read again; these three
  answers differ exactly as `Purging.SaveCodeDiffersExactly`, `CompleteDiffersExactly` and
  `RevokeDiffersExactly` say, and no grace period hides that (`Grace.ExpiredRequestsShow`).
- `RevokeToken` is not a transaction. Its family ends exactly if its DELETE removes a row
  or the family was already dead (`Revocation.RevocationDecides`); it lives on exactly if a
  rotation redeemed the token before, in either of two windows, and a descendant is live
  (`RevocationFailsExactly`). `Races.RevocationCanMissARotation` gives a run from an empty
  database for each window. `TerminateSession` has the same weakness
  (`TerminationFailsExactly`, `RotationOutlivesTermination`).
- Reserving a host that an app already manages makes the next sync remove the route of
  that host; otherwise reserved hosts keep theirs (`Reconcile.ReservedOutlivesExactly`).
  The methods `ReservedTooLate` and `ReservedInTime` run the calls in both orders;
  `nass serve` reserves before its first sync.

## Model

| member | source | states |
|---|---|---|
| Grants.RotationIsExclusive | internal/auth/oidc/tokens.go:158-200 | in every interleaving a family of refresh tokens has at most one live token and no refresh token is redeemed twice |
| Grants.DeadFamilyStaysDead | internal/auth/oidc/storage.go:87-113 | a family that has been issued and has no live refresh token never gets one again, whatever runs |
| Inheritance.RotationKeepsGrant | internal/auth/oidc/tokens.go:158-200 | every token of a family has the user, client, audience and authentication time of the first one |
| Inheritance.RotationInherits | internal/auth/oidc/tokens.go:184-194 | a rotation stores the requested scopes, the grant of the rotated row and a fresh 30-day lifetime |
| Ties.TiesHold | internal/auth/oidc/storage.go:19-25 | when calls do not overlap, every returned access token with a refresh id points at a live refresh token of the same user, client and audience that outlives it |
| Ties.RevokeOutcome | internal/auth/oidc/storage.go:135-169 | what the statements of a revocation add up to: an access token alone, or a refresh token with the access tokens tied to it; other clients are refused; unknown tokens succeed |
| Ties.RevocationEndsFamily | internal/auth/oidc/storage.go:135-169 | revoking a live refresh token for its client leaves no access token of its whole family that was ever returned, and deletes nothing else |
| Revocation.RevocationDecides | internal/auth/oidc/storage.go:153-168 | in every interleaving, the statement of a revocation that deletes the refresh token, or finds none, leaves the family dead if and only if it deletes a row or the family was dead |
| Revocation.RevocationFailsExactly | internal/auth/oidc/storage.go:147-168 | for a token live when the revocation begins, whatever runs between its statements: the family lives on if and only if a rotation redeemed the token first and a descendant is still live |
| Revocation.RevocationIsPermanent | internal/auth/oidc/storage.go:163-168 | once the revocation has deleted the token, its family has no live token in any later state of any interleaving |
| Races.RevocationCanMissARotation | internal/auth/oidc/storage.go:135-169 | two runs from an empty database, one for each window, in which the revocation answers Ok and its family has a live token |
| Revocation.TerminationFailsExactly | internal/auth/oidc/storage.go:119-133 | with anything between its two statements, ending a session leaves a token of the user for the client if and only if an access token for them was stored in between and is still there |
| Revocation.RotationOutlivesTermination | internal/auth/oidc/storage.go:119-133 | a rotation between the two statements leaves an accepted access token while the call answers Ok |
| SignOut.SignOutIsExact | internal/auth/users.go:111-179 | a new password, a demotion and a removal delete exactly the sessions and tokens of the user; promotion and re-saving a role delete nothing |
| SignOut.AccountsChangeExactly | internal/auth/users.go:111-166 | the account changes in the one column concerned and no other account changes |
| SignOut.SignOutIsPermanent | internal/auth/users.go:135-179 | what the user held when the sign-out committed is refused in every later state of every interleaving |
| SignOut.RotationInFlightFails | internal/auth/oidc/tokens.go:172-180 | a rotation in progress of a token the user held fails and changes nothing |
| SignOut.SignOutLeavesNothing | internal/auth/users.go:172-179 | a statement that signs a user out leaves no session and no token of that user |
| SignOut.InFlightStoresExactly | internal/auth/users.go:139-166 | after that, the next statement of a call in progress stores a row for the user if and only if it inserts an access token, the refresh token of a first pair or a session for a user who still exists |
| SignOut.UnknownIsRefused | internal/auth/oidc/tokens.go:47-66 | an id that is stored nowhere is refused by every check and by rotation |
| Removal.TerminateIsExact | internal/auth/oidc/storage.go:119-133 | with nothing between its two statements, ending a session deletes exactly the tokens of that user for that client |
| Removal.ClientRemovalIsExact | internal/auth/oidc/clients.go:125-150 | removing a client deletes it and exactly the tokens issued to it |
| Removal.ClientRemovalIsPermanent | internal/auth/oidc/clients.go:140-148 | tokens of a removed client are refused in every later state of every interleaving |
| Codes.CodesHaveOneRequest | internal/db/migrations/0001_init.sql:45-50 | in every reachable state each code refers to a stored request, and no request has two codes |
| Codes.CodesExpire | internal/auth/oidc/storage.go:53-72 | in every interleaving, an exchange that ends by finding a request read the code within five minutes of its storing and the request of that code within thirty minutes of its making, to the second |
| Codes.CodesDieWithTheirRequest | internal/auth/oidc/authrequest.go:163-166 | once its request is gone, a code is never accepted again |
| Integrity.StepKeepsIntegrity | internal/db/migrations/0002_oidc_full.sql:15-25 | no statement leaves a token or session without its user or gives an app two clients |
| Integrity.AcceptedExactly | internal/auth/oidc/storage.go:219-252 | in a reachable state a session, access or refresh token is accepted exactly if it is stored and not expired, and at introspection only for its audience |
| Identities.GoneForever | internal/auth/oidc/tokens.go:26-45 | with ids drawn at random, a deleted row never comes back in any interleaving |
| Identities.IdsKept | internal/auth/oidc/tokens.go:103-120 | every statement keeps keys unique across all tables, rows as they were inserted, and reserved ids unused |
| Purging.PurgeUnseen | internal/auth/oidc/storage.go:277-287 | a purge statement that stays the safe grace behind the clock removes nothing that can still be found, nor a code that still takes a place |
| Purging.SaveCodeDiffersExactly | internal/auth/oidc/storage.go:67-72 | at two alike databases saving a code is answered differently if and only if only one has a place for it, and then the request can be found at neither |
| Purging.CompleteDiffersExactly | internal/auth/oidc/authrequest.go:148-161 | completing a request is answered differently if and only if only one database stores it, and then it can be found at neither |
| Purging.RevokeDiffersExactly | internal/auth/oidc/storage.go:135-162 | revoking a token is answered differently if and only if only one database stores it for another client, and then it has expired at both |
| Twins.SameCallStep | internal/auth/oidc/storage.go:135-169 | the next statement of any call keeps two alike databases alike, and both sites answer or go on alike unless the call names a row nobody can find or is bound to fail at both |
| Simulation.TwinsRun | internal/cli/serve.go:141-160 | purge statements at arbitrary points among those of any other calls: the run without them is possible too and gives every call the same answer, except about rows nobody can find |
| Grace.UnobservableExactly | internal/auth/oidc/storage.go:277-287 | over all runs, with purge statements among those of other calls, the answers about rows that can be found agree with those of the run without purges if and only if purges stay 25 minutes and one second less a nanosecond behind the clock |
| Grace.DailyPurgeIsUnobservable | internal/cli/serve.go:131-137 | the day that the server keeps to is enough |
| Grace.ExpiredRequestsShow | internal/auth/oidc/authrequest.go:148-161 | at every grace period some run answers differently about a request that has expired |
| Flows.CodeFlow | internal/auth/oidc/storage.go:53-76 | within both lifetimes a code leads to the request as confirmed; a request takes no second code; after the request is deleted the code leads nowhere |
| Flows.NewRequestIsFound | internal/auth/oidc/authrequest.go:58-146 | a new request is found as it was made, with the user it names, until the second in which its thirty minutes end is over |
| Flows.IssuedPairWorks | internal/auth/oidc/storage.go:90-101 | an issued pair is accepted, at userinfo too, for its client, user, audience and scopes until each token expires |
| Flows.IssuedAccessWorks | internal/auth/oidc/storage.go:78-85 | a single access token is accepted at userinfo, and at introspection for its audience, with the client, user, audience and scopes asked for, until it expires |
| Flows.RotationSupersedes | internal/auth/oidc/storage.go:104-113 | after a rotation the old refresh token and the access tokens tied to it are refused and the new pair is accepted |
| Flows.SessionFlow | internal/portal/session.go:46-122 | a session is found with its user until it expires, is deleted when looked up later, and is gone once revoked |
| Flows.ClientFlow | internal/auth/oidc/clients.go:62-150 | an app gets one client, and another only after the first is removed |
| Flows.PurgeLeavesNothingExpired | internal/auth/oidc/storage.go:277-287 | a purge leaves no row of its four tables that expired before the cutoff |
| Effects.InsertFailsExactly | internal/db/migrations/0001_init.sql:18-61 | an insertion fails if and only if its key is stored, what it refers to is not, or what must be unique is taken; then nothing changes |
| Effects.InsertAddsOne | internal/auth/oidc/tokens.go:26-45 | any other insertion adds one row under the key it brings and changes no other |
| Effects.RequestDeletionIsExact | internal/auth/oidc/authrequest.go:163-166 | deleting a request takes it and its code and nothing else |
| Effects.SessionRevocationIsExact | internal/portal/session.go:105-122 | revoking a session takes that session and nothing else |
| Effects.RotationIsExact | internal/auth/oidc/tokens.go:158-200 | a rotation takes the old refresh token and the access tokens tied to it except the new one, and adds one refresh token |
| Effects.RevocationIsExact | internal/auth/oidc/storage.go:135-169 | revoking takes exactly the access token, or the refresh token with the access tokens tied to it, and nothing of another client |
| Effects.PurgeIsExact | internal/auth/oidc/storage.go:277-287 | a purge statement takes exactly the rows that expired before the cutoff and the codes of the requests it takes |
| Effects.Lifetimes | internal/auth/oidc/storage.go:19-25 | the lifetimes of tokens, requests, codes and sessions in nanoseconds |
| Stores.RunStaysSound | internal/db/migrations/0002_oidc_full.sql:15-25 | a call that runs to its end keeps foreign keys, one client per app, one code per request, the tie between tokens and the bounds on lifetimes |
| Stores.UserStore.SetAdmin | internal/auth/users.go:111-135 | changes the role; a demotion leaves nothing the user held; an unknown user fails |
| Stores.UserStore.SetPassword | internal/auth/users.go:139-166 | short passwords and unknown users fail; otherwise the user holds nothing afterwards |
| Stores.UserStore.SignOutEverywhere | internal/auth/users.go:172-179 | the loop over three tables deletes all the user's rows |
| Stores.SessionStore.Issue | internal/portal/session.go:46-72 | issues a session for seven days exactly if the user exists |
| Stores.SessionStore.Lookup | internal/portal/session.go:76-102 | finds a session exactly if it is stored and not expired, and deletes an expired one |
| Stores.Storage.AuthRequestByCode | internal/auth/oidc/storage.go:53-65 | finds the request exactly within both lifetimes; the request of a stored code is always stored |
| Stores.Storage.RotateRefreshToken | internal/auth/oidc/tokens.go:158-200 | is one transaction: all of the rotation or nothing |
| Stores.Storage.CreateAccessAndRefreshTokens | internal/auth/oidc/storage.go:87-113 | issues a pair exactly for a stored user and, in rotation, an unexpired refresh token; a failure leaves at most an orphan access row |
| Stores.Storage.TerminateSession | internal/auth/oidc/storage.go:119-133 | fails on an invalid subject and otherwise leaves no token of the user for the client |
| Stores.Storage.RevokeToken | internal/auth/oidc/storage.go:135-169 | fails exactly for the token of another client and otherwise leaves neither an access nor a refresh token of that id |
| Stores.Storage.SetUserinfoFromToken | internal/auth/oidc/storage.go:219-228 | accepts exactly a stored, unexpired token, because its user must exist |
| Stores.Storage.SetIntrospectionFromToken | internal/auth/oidc/storage.go:230-252 | accepts, besides, exactly for a client found in the audience |
| Stores.Storage.PurgeExpired | internal/auth/oidc/storage.go:277-287 | the loop over four tables leaves no row in them that expired before the cutoff |
| Stores.DeleteClient | internal/auth/oidc/clients.go:125-150 | deletes the client of the app and its tokens in one transaction, and succeeds exactly if there was one |
| Routes.RouteManager.constructor | internal/proxy/manager.go:32-41 | a new manager manages no host and remembers the fixed routes |
| Routes.RouteManager.Reserve | internal/proxy/manager.go:43-49 | reserves the hosts in lower case; with all fixed hosts reserved, the fixed routes are sealed |
| Routes.RouteManager.Claim | internal/proxy/manager.go:67-89 | the loop registers exactly the winners and reports exactly the refused routes |
| Routes.RouteManager.DropStale | internal/proxy/manager.go:91-98 | drops exactly the managed hosts that nobody claims, whatever the order of the map |
| Routes.RouteManager.AddDesired | internal/proxy/manager.go:99-104 | adds exactly the winners, whatever the order of the map |
| Routes.RouteManager.Sync | internal/proxy/manager.go:58-106 | the router equals one built from scratch over the fixed routes; each observed state shows each host its old or new route; a failed query changes nothing |
| Routes.LoadEnabled | internal/proxy/apps.go:70-108 | every row becomes a route or a problem, in order |
| Routes.Server.AddRoute | internal/proxy/proxy.go:36-40 | registers the host in lower case |
| Routes.Server.RemoveRoute | internal/proxy/proxy.go:43-49 | unregisters the host and says whether it was there |
| Routes.Server.Dispatch | internal/proxy/proxy.go:62-93 | serves the route of the host without port and case, or the fallback |
| Routes.DesiredWins | internal/proxy/manager.go:71-89 | the registered routes are the winners of their hosts, one per host |
| Reconcile.HostGoesToFirstByName | internal/proxy/apps.go:126-146 | a host goes to the enabled, valid, buildable app first in name order, if it is not reserved; the table alone decides |
| Reconcile.SavedAppIsRouted | internal/proxy/apps.go:111-122 | after settings that can be served are saved, the next sync routes the host they name, to this app if and only if no eligible app comes first by name |
| Reconcile.RebuiltUnique | internal/proxy/manager.go:58-106 | the router after a sync does not depend on earlier syncs or map orders |
| Reconcile.NoRoutingGap | internal/proxy/manager.go:91-104 | no state in between leaves a host that keeps its app without a handler, or routes a host that is neither old nor new |
| Reconcile.ReservedOutlivesExactly | internal/proxy/manager.go:72-75 | a reserved host keeps its route exactly if no app was managing it |
| Reconcile.ReservedTooLate | internal/proxy/manager.go:43-49 | a sync with an app on a fixed host, then the reservation, then a sync: the host is not routed |
| Reconcile.ReservedInTime | internal/proxy/manager.go:43-49 | with the reservation first, the host keeps its fixed route |
| Reconcile.RoutedOrReported | internal/proxy/manager.go:71-89 | routed apps plus problems equals enabled rows; each app is routed or reported, exactly once |
| Reconcile.RejectedExactly | internal/proxy/apps.go:78-105 | an app is reported for a settings column that cannot be decoded, for an empty subdomain or for an empty backend exactly if that is the first fault of its row; every other app gets the route its settings name |
| Reconcile.RefusedExactly | internal/proxy/manager.go:71-89 | a route is refused as reserved, taken by a named app, unreachable or without gate exactly if that is the first obstacle it meets, told by the routes alone |
| Reconcile.WinnerIsFirst | internal/proxy/manager.go:71-89 | the winner of a host is the first route with that host whose backend can be served, if the host is not reserved |
| Reconcile.RefusalsAreTrue | internal/proxy/manager.go:72-86 | each reason given is true of the finished sync: the host is reserved, or held by the app named, or the backend has no scheme or host, or the app asks for a gate and there is none |
| Reconcile.ManagedHostsDistinct | internal/proxy/manager.go:110-118 | managed hosts are pairwise distinct and none is reserved |
| Dispatch.ServedAsConfigured | internal/proxy/apps.go:126-146 | a routed app is served through the gate exactly if it asks for it, and reaches its own backend with its options |
| Dispatch.PortIsStripped | internal/proxy/proxy.go:82-93 | a port is stripped from names and from what begins with a bracketed address, in any letter case |
| Dispatch.NothingToStrip | internal/proxy/proxy.go:82-93 | without a port nothing is stripped, nor after a bracket that is not closed before the last colon |
| Dispatch.CaseIsIgnored | internal/proxy/proxy.go:62-93 | Host headers that differ only in the case of letters lead to the same entry |
| Dispatch.RoutedInAnyCase | internal/proxy/proxy.go:36-77 | a route serves its host in any letter case, with or without a port, and is removed by its host in any letter case |
| Text.LowerExactly | internal/proxy/proxy.go:36-40 | capitals become small letters, place by place in the alphabet, other characters stay, and no capital is left |
| Text.SameLowerExactly | internal/proxy/proxy.go:43-49 | two hosts have the same key if and only if they differ only in letter case |
| Ini.PatchConf | internal/apps/qbittorrent/qbittorrent.go:116-181 | for every settings map and every order in which its loops visit it, the text made of the edited lines and the missing ones; with keys without equals signs always the same text, and a change is reported exactly if the original was not settled |
| Ini.EditLines | internal/apps/qbittorrent/qbittorrent.go:120-131 | edits lines in place, each as its own order of the map says; finds which settings occur and whether a line changed |
| Ini.EditLine | internal/apps/qbittorrent/qbittorrent.go:121-130 | the inner loop leaves what the last setting that claims the line wants |
| Ini.CollectMissing | internal/apps/qbittorrent/qbittorrent.go:133-145 | one line for each setting not seen, sorted |
| Text.FirstDifferenceDecides | internal/apps/qbittorrent/qbittorrent.go:145-145 | in the order of the inserted lines the smaller character at the first difference comes first, and a text before its continuations |
| Ini.OrderIrrelevantExactly | internal/apps/qbittorrent/qbittorrent.go:120-131 | every order of the map edits every line in the same way if and only if no two keys can claim one line for different values |
| Ini.FindInsertAt | internal/apps/qbittorrent/qbittorrent.go:147-166 | the scan for the place of insertion |
| Ini.InsertLines | internal/apps/qbittorrent/qbittorrent.go:167-179 | inserts the lines there, or creates the section at the end |
| IniMeaning.ReadPatched | internal/apps/qbittorrent/qbittorrent.go:116-181 | a reader finds the original settings with patched values, and the added ones inserted |
| IniMeaning.ReadPatchedExactly | internal/apps/qbittorrent/qbittorrent.go:116-181 | with keys without equals signs, that holds of every file if and only if no key looks like the beginning of a section header |
| IniMeaning.AddedExactly | internal/apps/qbittorrent/qbittorrent.go:133-145 | each setting seen nowhere is added once to `[Preferences]` with its value, nothing else is |
| IniMeaning.MeaningKept | internal/apps/qbittorrent/qbittorrent.go:147-180 | in the patched text every setting whose key is not patched reads as before in every section |
| IniMeaning.OthersReadTheSame | internal/apps/qbittorrent/qbittorrent.go:116-131 | the unpatched settings are the same list, section by section, byte for byte |
| IniMeaning.LinesSurvive | internal/apps/qbittorrent/qbittorrent.go:167-179 | every other line survives in order; only if settings are missing and no line is `[Preferences]` are a header and, unless the file ends in a blank line, a blank line added |
| IniMeaning.ReadAround | internal/apps/qbittorrent/qbittorrent.go:149-166 | the place of insertion is in `[Preferences]` |
| IniMeaning.InsertedAtSectionEnd | internal/apps/qbittorrent/qbittorrent.go:147-166 | new lines follow the last line of the section that is not blank |
| IniMeaning.InsertAtExactly | internal/apps/qbittorrent/qbittorrent.go:149-166 | a place is found if and only if some line is `[Preferences]` but for white space, and it follows the last line that is not blank of the first such section |
| IniMeaning.EditedExactly | internal/apps/qbittorrent/qbittorrent.go:120-131 | a line that begins with a key and an equals sign becomes the key, an equals sign and the value; no other line changes |
| IniMeaning.MissingExactly | internal/apps/qbittorrent/qbittorrent.go:133-145 | the lines to insert are those of the settings that no line begins with, in ascending order |
| IniMeaning.PatchedExactly | internal/apps/qbittorrent/qbittorrent.go:147-180 | the missing lines go to the end of the first `[Preferences]` section, or below a new header at the end of the file, with a blank line before it unless the file ends in one |
| IniMeaning.PatchedIsSettled | internal/apps/qbittorrent/qbittorrent.go:111-115 | afterwards every setting has a line with its value and none with another |
| IniMeaning.PatchedTwice | internal/apps/qbittorrent/qbittorrent.go:137-140 | the patched text needs no patch if and only if every setting is one line; then patching again changes nothing |
| IniMeaning.WebUISettingsReadRight | internal/apps/qbittorrent/qbittorrent.go:33-38 | for the settings that nass patches and any file: afterwards all are set and every other setting reads as before |
| Throttle.LoginThrottle.constructor | internal/auth/throttle.go:32-48 | replaces limits and windows that are not positive by the defaults |
| Throttle.LoginThrottle.Allow | internal/auth/throttle.go:66-76 | answers as a checker of the full record of failures would |
| Budgets.AllowedExactly | internal/auth/throttle.go:66-76 | allowed means fewer failures than the limit among those in the window, counted in the record, of the user since the last success and of the address |
| Throttle.LoginThrottle.Failed | internal/auth/throttle.go:79-91 | records the failure in both budgets; nothing older than two windows stays |
| Throttle.LoginThrottle.Success | internal/auth/throttle.go:96-103 | clears the user's budget only |
| Throttle.LoginThrottle.RetryAfter | internal/auth/throttle.go:107-114 | the longer of the two waits over the full record |
| Throttle.LoginThrottle.WaitFor | internal/auth/throttle.go:116-128 | the wait of one budget over its full record |
| Throttle.LoginThrottle.Sweep | internal/auth/throttle.go:132-140 | trims every key at most once per window and keeps the agreement with the record |
| Throttle.LoginThrottle.Trim | internal/auth/throttle.go:142-159 | keeps the failures after the cutoff and drops a key without any |
| Throttle.FilterRecent | internal/auth/throttle.go:147-153 | the filter on the shared array equals filtering a copy |
| Throttle.KeptRecent | internal/auth/throttle.go:142-159 | trimming what earlier trims left gives what trimming the full record would |
| Throttle.KeyTimesExact | internal/auth/throttle.go:60-61 | what is recorded under the keys of addresses without a bar is what was recorded for them |
| Throttle.KeysCollideExactly | internal/auth/throttle.go:60-60 | a user key is shared with another pair exactly if the address or the name contains a bar |
| Throttle.UserKeysDiffer | internal/auth/throttle.go:60-60 | addresses without a bar keep user keys apart |
| Budgets.WaitExact | internal/auth/throttle.go:116-128 | a budget is free exactly from the end of its wait on |
| Budgets.RetryAfterExact | internal/auth/throttle.go:105-128 | refused throughout the wait, allowed from its end on; zero exactly when allowed |
| Budgets.RetryAfterBounds | internal/auth/throttle.go:107-128 | the same with every clock reading apart |
| Budgets.MemoryBound | internal/auth/throttle.go:130-140 | at most two keys per failure recorded in the last two windows |
| Attempts.FailuresAreBounded | internal/portal/login.go:39-61 | with C attempts in flight per address, the failures in any window, and the last window's with those in flight, stay within ipMax + C - 1 |
| Attempts.OutcomesCount | internal/portal/login.go:39-61 | a failure counts against both budgets, a success clears the budget of its user alone, and asking changes none |
| Attempts.BoundIsReached | internal/auth/oidc/login.go:120-133 | some run reaches that bound |
| Cookies.StripCookie | internal/proxy/reverse.go:87-110 | strips every value of the Cookie field, drops blank ones, and deletes a field with none left |
| Cookies.FilterParts | internal/proxy/reverse.go:95-101 | the filter on the shared array equals filtering a copy |
| Cookies.KeptExactly | internal/proxy/reverse.go:94-101 | every part that is not the named cookie is kept byte for byte, once and in order |
| Cookies.SplitAgain | internal/proxy/reverse.go:94-104 | the output splits into the kept parts, up to white space around the value |
| Cookies.NoneLeft | internal/proxy/reverse.go:84-86 | no part of the output is the named cookie |
| Cookies.OthersUntouched | internal/proxy/reverse.go:84-86 | a value without the cookie only loses the white space around it |
| Cookies.StrippedTwice | internal/proxy/reverse.go:87-110 | stripping is idempotent and touches no other field |
| Cookies.ReadStripped | internal/proxy/reverse.go:87-110 | who reads the field finds exactly the other cookies, in order |
| Cookies.ListStripped | internal/proxy/reverse.go:87-104 | of any list of cookies separated by a semicolon and a blank, exactly those that are the name, or the name and an equals sign and more, are taken out; the others stay as they were written |
| Cookies.SecondCookie | internal/proxy/reverse.go:95-104 | of two cookies the second goes, whatever its value, if it has the name, and stays if it has another |
| Cookies.FieldStripped | internal/proxy/reverse.go:87-110 | a field of such lists holds afterwards the other cookies, list by list, and is removed when none is left; no other field changes |

## Left out

- The OpenID Connect library, signing keys, PKCE, bcrypt and random generation: ids are fresh by assumption, and whether a password is right is an input.
- SQL text, the encoding of timestamps and driver errors other than constraint violations; a comparison with CURRENT_TIMESTAMP is exact to the second.
- Each statement has one clock reading, although the code may read the clock just before or after it; the throttle keeps its readings apart.
- JSON encoding of scopes, audiences and settings (sequences and records here), and URL parsing (its result is stored with the text).
- Effects.InsertFailsExactly: accounts are known by id; user names, which must be unique too, are not modelled.
- Stores.Provision: the app's own row, the secret and the redirect URIs are not modelled, only the client it owns.
- Simulation.TwinsRun: compares the answers of all calls except about rows that nobody can find; for those, the three lemmas on what differs say when they do. GetRefreshTokenInfo, which ignores expiry too, is not modelled.
- Ties.TiesHold: is about runs in which calls do not overlap, because revocation and session end are not transactions in the code; what overlapping does to them is in `revocation`.
- Throttle.LoginThrottle.Allow: assumes addresses without a bar, as net.SplitHostPort yields; `KeysCollideExactly` says when keys collide. A nil throttle, which allows everything, is not modelled.
- Throttle.LoginThrottle.Trim: copies the list to filter it; the spare capacity that Go slices share is not modelled, and no other slice refers to it.
- IniMeaning.ReadPatched: assumes keys without an equals sign, because a reader would take the part before the first one for the key; `PatchConf` itself assumes nothing. `MeaningKept` assumes besides that every setting is one line, which is more than it needs when a further line happens to say nothing new.
- Ini.EditLine: is a method of its own although the source nests the loop, to keep each proof small.
- Routes.RouteManager.Sync: overlapping syncs that read stale rows are left out; a completed sync installs the rows it was given.
- Text: white space and letter case are those of ASCII.
- HTTP handlers, templates, TLS, reverse proxying, Docker orchestration, installers, CLI and configuration: input and output around the parts above.
- Port selection, the registry, background jobs and the check for the last admin: easy members that would add little.
