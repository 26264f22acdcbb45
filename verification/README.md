# Authy: sessions, permissions, caches and OAuth codes

Authy keeps its state in database rows and in Redis keys that expire. What a caller may do follows from how those two
stores, the expiry of signed tokens and the clock act together over a whole run. This project models that state and
proves what every run keeps.

Four machines, each a value with one function per service call and a run as a sequence of calls:

* **Session** (`Session.dfy`): users, refresh tokens, verification and reset tokens, the jti blacklist, the per-user
  revocation second, the user cache and the RBAC tables. `SessionInvariant.dfy` holds the inductive invariant;
  `SessionSafety.dfy`, `RevocationLimits.dfy`, `Verdicts.dfy`, `RefreshVerdicts.dfy`, `MailVerdicts.dfy`,
  `Credentials.dfy`, `Reuse.dfy`, `Snapshots.dfy` (with `SnapshotExample.dfy`), `Claims.dfy`, `Rotation.dfy`,
  `Lockout.dfy`, `OneShotRuns.dfy`, `UserCache.dfy`, `RbacRuns.dfy`, `AclRuns.dfy` and `PasswordRuns.dfy` hold the
  theorems over runs. `OneShot.dfy` and `Passwords.dfy` are two of its tables.
* **RBAC** (`Acl.dfy`, `AclProofs.dfy`, `AclEffects.dfy`, `SilentCalls.dfy`, with `Resolver.dfy` and `Features.dfy`):
  apps, features, versioned roles, per-user overrides, permission resolution, sync requests.
* **Interleaved protocols**: one token or code consumed by concurrent calls (`ConsumeRace.dfy`), one user's refreshes
  and revocations (`RefreshRace.dfy`), logins against the lockout counter (`LoginRace.dfy`), the read-through
  permission cache (`PermKeys.dfy`, `PermCache.dfy`), and the daily quota (`Plans.dfy`, `Quota.dfy`). Here reads and
  writes are separate steps in any order.
* **OAuth** (`OAuth.dfy`, `OAuthTraces.dfy`, `OAuthEffects.dfy`, `Scopes.dfy`): apps, authorization codes and PKCE,
  next to the session machine that owns the users; sections 4.1.1 to 4.1.4 of RFC 6749 and sections 4.2 and 4.6 of RFC
  7636.

Code that changes state step by step is also written that way: `Storage.dfy` (tables and keys as fields, repository
and cache methods), `AuthServices.dfy`, `AclServices.dfy`, `OAuthServices.dfy`, `CheckController.dfy`, the middleware
in `Quota.dfy` and the clean-up in `Audit.dfy`. Each service method is proved to leave exactly the state, and to
return exactly the outcome, that its machine says. `Server.dfy` draws the conclusion: a server that dispatches any
sequence of calls to the services makes a run of the machine (`Server.Handle`, `Server.Serve`), so what the theorems
say of runs is true of the services' fields.

`dafny verify dfyconfig.toml` checks everything.

The run theorems whose names end in `Iff`, or say what was last set or given, tell a decision by the calls made so
far: which access tokens are accepted (`Verdicts.IssuedVerdictIff`), which refresh and mailed tokens work
(`RefreshVerdicts.RefreshWorksIff`, `MailVerdicts.MailedWorksIff`), who can log in (`Credentials.LoginInRunIff`), what
a user is shown (`AclRuns.ShownAsLastGiven`), which client secret works (`OAuthEffects.SecretWorksIff`).

## Assumptions

* Redis and the database succeed. The code fails open on Redis errors; that is outside the theorems.
* A service call of the session, RBAC and OAuth machines is one step. Where the interleaving is the point it is
  modelled step by step (`ConsumeRace`, `RefreshRace`, `LoginRace`, `PermCache`, `Quota`).
* The clock does not go back. Database times and key lifetimes are in milliseconds, token times in whole seconds,
  rounded down as the code does.
* SHA-256 is injective; uuids, random tokens and jtis are fresh, drawn from counters; bcrypt comparison looks at the
  whole password. A token is genuine if and only if it was signed here.
* Emails arrive in lower case. Rows of a query without an order come in insertion order, except where the theorem is
  about any order.

## Where code and documentation disagree

The model follows the code.

* `readme.md:245` and `readme.md:830` promise the last N password hashes. `addPasswordHistory` sorts ascending and
  skips N, so the first N are kept for ever (`Passwords.RetainsOldest`; exactly when the two agree:
  `Passwords.DocumentedIff`).
* `readme.md:572` says the role version in the permission cache key makes a role change effective at once. The version
  in the key is the one the caller's token carries, so an old token keeps its cached answer for up to sixty seconds
  (`PermCache.ServedUntilExpiry`; exactly when a lookup is current: `PermCache.LookUpCurrentIff`).
* `src/controllers/check.controller.ts:16-17` says permission changes drop the cached permissions.
  `invalidatePermissionsForUser` has no caller; only the lifetime bounds staleness.
* `readme.md:865` says the user cache is dropped on update. A login updates the last login time and leaves the copy
  (`UserCache.LoginLeavesStaleCopy`; exactly when a read is current: `UserCache.GetMeExactIff`).
* `src/services/cache.service.ts:66` says thirty days outlive any access token. The lifetime is a setting without an
  upper limit; the exact bound is `RevocationLimits.PermanenceIff`.
* In `updateMe` the branch that turns a duplicate nid into a conflict is never taken: the repository has already
  replaced the message, so the caller sees a database error (`src/services/auth.service.ts:438-442`;
  `Session.UpdateMe` never fails with a conflict).
* `readme.md:668` says logout-all revokes all sessions. A refresh that has read its row by then still stores a live
  one afterwards (`RefreshRace.EndsForGoodIff`).
* The check endpoint passes the calling organization's id where the resolver expects an app id
  (`src/controllers/check.controller.ts:77`). The cache theorems hold for any ids.

## Model

| member | source | states |
|---|---|---|
| `SessionSafety.RevocationIsPermanent` | src/services/token.service.ts:65-80 | In every run, an issued access token that is rejected once (expired, blacklisted or older than the revocation second) is never accepted again, provided tokens live at most thirty days and one second |
| `RevocationLimits.PermanenceIff` | src/services/cache.service.ts:64-71 | That lifetime bound is exact: rejection is final in all runs if and only if it holds |
| `RevocationLimits.LongTokenComesBack` | src/services/cache.service.ts:64-71 | A longer-lived token is rejected after a suspension and accepted again when the thirty-day key has gone |
| `Verdicts.IssuedVerdictIff` | src/middleware/auth.middleware.ts:16-36 | In every run an issued access token is accepted if and only if it has not expired, and since its signing nobody logged out with it and no call ended its user's sessions in a later second than the token's, provided tokens live at most thirty days and one second |
| `Verdicts.AcceptedIff` | src/services/token.service.ts:65-80 | The same from any valid state in which the token is accepted |
| `Verdicts.LogoutVerdictIff` | src/services/auth.service.ts:188-207 | A logout ends the presented access token and leaves the verdict on every other token as it was |
| `Verdicts.LogoutAllVerdictIff` | src/services/auth.service.ts:211-232 | A logout-all ends the presented token, even in the second it was signed in, and its user's tokens of earlier seconds, and no other |
| `Verdicts.LogoutIsFinal` | src/services/token.service.ts:65-70 | An access token presented at either logout is never accepted again in any later state, whatever lifetime is configured |
| `SessionInvariant.BlacklistKeyOutlivesToken` | src/utils/jwt.utils.ts:48-50 | The blacklist key written for a token, with the remaining whole seconds as its lifetime, expires no earlier than the token |
| `SessionSafety.SessionKillComplete` | src/services/auth.service.ts:211-223 | Right after a successful logout-all, reset, change, suspension, deactivation or RBAC change, exactly the affected users have no live refresh token and no acceptable access token of an earlier second; everybody else keeps rows, stamp and verdicts |
| `SessionSafety.LogoutAllEnds` | src/services/auth.service.ts:211-232 | Logout-all ends the sessions of exactly its own user |
| `SessionSafety.ResetEnds` | src/services/auth.service.ts:330-364 | A successful password reset ends the sessions of exactly the token owner |
| `SessionSafety.ChangeEnds` | src/services/auth.service.ts:368-405 | A successful password change ends the sessions of exactly that user |
| `SessionSafety.SuspensionEnds` | src/services/auth.service.ts:479-499 | A suspension ends the sessions of exactly the suspended user |
| `SessionSafety.DeactivationEnds` | src/services/auth.service.ts:552-587 | An administrator update that sets the account inactive ends the sessions of exactly that user |
| `SessionSafety.AclEnds` | src/services/acl.service.ts:588-601 | An RBAC call ends the sessions of exactly the holders of the changed role, or of the user whose access changed |
| `SessionSafety.KillVerdictIff` | src/services/token.service.ts:71-80 | The one-second gap: of an invalidated user's accepted tokens exactly those signed in that very second stay accepted |
| `SessionSafety.IssuedOnlyToVerifiedActive` | src/services/auth.service.ts:626-660 | Every access token ever issued in a run was signed at some step for a user then both verified and active, with the permissions of that moment |
| `Snapshots.AcceptedSnapshotsAreCurrent` | src/services/acl.service.ts:588-601 | In every run, with tokens that live at most thirty days and one second, for every accepted token: it was signed by some call, and unless a silent call changed its user's permissions since, it carries exactly what the user resolves to now, or was signed in the very second of the user's latest invalidation |
| `Snapshots.SilentCallsKeepVerdicts` | src/services/acl.service.ts:83-119 | App suspension and reactivation, feature removal, new assignments and user deletion change no verdict on any access token |
| `Snapshots.SilentCallStaleIff` | src/services/acl.service.ts:83-119 | A suspension, reactivation, assignment or deletion makes a current accepted token stale exactly if, before the call: the user resolves the suspended app; has active access to the inactive app; is the one assigned and the assignment goes through; is the one deleted and resolves to something |
| `Snapshots.RemovalStaleIff` | src/services/acl.service.ts:189-203 | A feature removal makes a current accepted token stale exactly if an app of the user names the feature and lists its key, provided no other feature of that access row has the same key |
| `SnapshotExample.TokenListsRead` | src/repositories/app.repository.ts:428-462 | Some run assigns a user, gives the role a feature, logs in and suspends another app: the accepted token lists the feature and is current |
| `Snapshots.SuspendedAppStaysInTokens` | src/services/acl.service.ts:83-100 | A suspended app disappears from the resolution while every accepted token that lists it stays accepted |
| `SilentCalls.SuspensionChangesIff` | src/services/acl.service.ts:83-100 | A suspension changes the resolution of exactly the users who resolve the app |
| `SilentCalls.ReactivationChangesIff` | src/services/acl.service.ts:102-119 | A reactivation changes it for exactly those with active access to an app that is not active |
| `SilentCalls.AssignmentChangesIff` | src/services/acl.service.ts:430-470 | An assignment changes it exactly when it goes through, and only for its own user |
| `SilentCalls.DeletionChangesIff` | src/services/auth.service.ts:589-605 | A user deletion changes it exactly for that user, if there was anything to resolve |
| `SilentCalls.UnusedRemovalKeepsResolution` | src/services/acl.service.ts:189-203 | Removing a feature that no role or override row of the user names changes nothing for the user, to the order of the list |
| `SilentCalls.RemovalChangesKeysIff` | src/services/acl.service.ts:189-203 | Removing a feature changes the set of keys a row grants exactly if its key is decided otherwise once the rows on the feature are ignored, whatever other features share the key |
| `SilentCalls.RemovalChangesIff` | src/services/acl.service.ts:189-203 | Where the feature alone carries its key, the removal changes the resolution of exactly the users it grants the key to |
| `Session.StepMoves` | src/services/auth.service.ts:64-673 | What no call undoes: time and fresh ids never go back, revoked rows stay revoked, verified users stay verified, emails and organizations stay, stamps only move to the current second, a history only grows at its end |
| `Session.StepFrame` | src/services/auth.service.ts:64-673 | Only logins and refreshes sign tokens, only logouts write the blacklist, only RBAC calls and deletions touch the RBAC tables, only a deletion removes users, and only the clock moves time |
| `SessionInvariant.StepValid` | src/services/auth.service.ts:64-673 | Every service call keeps the full invariant: email index, row ownership, token times, unique jtis, key lifetimes, cache coherence, attempt bound, one unused one-shot token per user, history bound |
| `SessionInvariant.RunValid` | src/services/auth.service.ts:64-673 | The invariant holds in every state of every run |
| `Session.LoginCases` | src/services/auth.service.ts:111-184 | A login changes nothing, counts one failure, or resets the counter and issues tokens to a verified and active user |
| `Session.UpdateMe` | src/services/auth.service.ts:409-443 | Whatever the profile data, the answer is never a conflict (a duplicate nid surfaces as a database error), no token is issued, and no lock, login time or role changes |
| `Claims.EmailAndOrgCurrent` | src/services/auth.service.ts:637-647 | In every run the email and organization in an issued token are those of its user, as long as the user exists |
| `Claims.RoleCurrentIff` | src/services/auth.service.ts:568-573 | In every run an issued token's role claim is its user's present role if and only if no administrator's edit since the signing gave the user a role, or the last one gave back the token's |
| `Claims.RoleIsLastGiven` | src/services/auth.service.ts:552-587 | Through any run a user's role is the one an administrator gave last, or the one at the start |
| `Claims.RoleChangeKeepsTokens` | src/middleware/auth.middleware.ts:16-38 | A role change that does not also deactivate the account leaves every verdict on access tokens as it was |
| `Credentials.LoginInRunIff` | src/services/auth.service.ts:111-184 | From any valid state on, while a user exists and the account is not locked, a login gets tokens if and only if the account was confirmed, was last switched on, and the password is the one last set |
| `Credentials.RegisteredLogsInIff` | src/services/auth.service.ts:67-107 | The same for a user from registration on: the password is the one last set, or the one registered with if none was |
| `Credentials.StandingIsLastSet` | src/services/auth.service.ts:262-605 | Through any run a user's password hash, verification and activation are what the last calls on them made of them |
| `Credentials.NewPasswordLogsIn` | src/services/auth.service.ts:330-405 | Right after a successful reset or change the new password gets tokens for a user who may log in at all, and every other password, the old one included, is a wrong guess |
| `Credentials.ResetSets` | src/services/auth.service.ts:330-364 | A reset stores the new password for the user the token was mailed to, and changes no other row and no other column |
| `Credentials.ChangeSets` | src/services/auth.service.ts:368-405 | A change asks for the current password and stores the new one, in no other row and no other column |
| `Credentials.VerifyConfirms` | src/services/auth.service.ts:262-283 | A mailed token that works verifies and activates exactly the user it was mailed to, also one suspended before the first verification; a later one changes no row |
| `Credentials.ForceConfirms` | src/services/auth.service.ts:520-550 | Activation by force needs an unverified user and the administrator's own password; it confirms, clears counter and lock, and retires the mailed tokens |
| `Credentials.SwitchSets` | src/services/auth.service.ts:479-518 | Suspension and activation switch exactly this account, and nobody suspends himself |
| `Credentials.EditSets` | src/services/auth.service.ts:552-587 | An edit writes the given role, status and profile fields, leaves all else, and fails exactly for a missing user, a self-deactivation or a taken identifier |
| `Credentials.ProfileSets` | src/services/auth.service.ts:409-443 | A user's own edit merges the given fields into the profile, leaves all else, and drops the cached copy |
| `Credentials.RegisterAdds` | src/services/auth.service.ts:67-107 | Registration takes an unused email and a strong password; the new user answers to that password only, is neither verified nor active, and is mailed a token that works |
| `Credentials.OrgRegisterAdds` | src/services/org.service.ts:260-313 | An organization's user is verified and active at once, and answers to the given password only, or in delegated mode to none |
| `Credentials.DeletionForgets` | src/services/auth.service.ts:589-605 | A deletion leaves no row, address, token, history, cached copy or access of the user, and everything of everybody else |
| `Rotation.RevokedForever` | src/repositories/token.repository.ts:36-54 | A refresh token whose row is revoked or deleted is refused with no effect in every later state |
| `Rotation.SingleUse` | src/services/token.service.ts:31-50 | A refresh token gets past the checks at most once in a run, even if its user was inactive that time |
| `Rotation.RefreshCases` | src/services/auth.service.ts:236-258 | What a refresh does to the rows: nothing, one revocation, or one revocation and one new row of the same user |
| `Rotation.LogoutSpends` | src/services/auth.service.ts:188-207 | A refresh token presented at logout is never usable again |
| `Rotation.RefreshConserves` | src/services/auth.service.ts:236-258 | A successful refresh leaves every user with exactly as many live refresh tokens |
| `Rotation.LiveRowsBounded` | src/services/auth.service.ts:236-258 | In every run a user's live refresh tokens number at most the successful logins since all the user's sessions last ended |
| `RefreshVerdicts.RefreshWorksIff` | src/services/auth.service.ts:236-258 | In every run a refresh with a stored token gets new tokens if and only if neither token nor row has expired, no refresh or logout with it, end of its user's sessions or deletion came in between, and the user is active |
| `RefreshVerdicts.SigningInHandsOut` | src/services/auth.service.ts:626-660 | Login and refresh hand out tokens that start now: the access token with the configured lifetime, the row's claims and the present permissions, the refresh token with its own lifetime and a row for seven days |
| `ConsumeRace.FindPassesIff` | src/services/token.service.ts:31-50 | With read and spending as separate steps, a call passes its check if and only if the signature of a signed token has not expired, nothing took the row away before the read, and the row had not expired |
| `ConsumeRace.SuccessReadBeforeFirstSpend` | src/services/token.service.ts:31-50 | Every call that consumes a refresh token, one-shot token or authorization code read the row in time and before it was first spent |
| `ConsumeRace.NonOverlappingSingleUse` | src/services/token.service.ts:96-134 | Once one call has consumed the token no call that reads later ever does |
| `ConsumeRace.OverlappingAllConsume` | src/services/oauth.service.ts:232-245 | Any number of calls that all read before one commits all consume the token or code |
| `ConsumeRace.TakenForever` | src/repositories/token.repository.ts:36-54 | A spent or deleted row stays so under every interleaving |
| `RefreshRace.SessionsBounded` | src/services/auth.service.ts:240-247 | With read, revocation and storing as separate steps, the sessions of a user number at most the ones at the start, plus logins, plus reads of a row another call has read and not revoked yet |
| `RefreshRace.OverlapsMultiply` | src/services/auth.service.ts:240-247 | From one session, overlapping refreshes reach any number of live sessions without a login |
| `RefreshRace.EndsForGoodIff` | src/services/auth.service.ts:211-223 | A revoke-all ends every session for good if and only if no refresh is past its read at that moment; one that is stores a live row afterwards |
| `Lockout.LockoutBound` | src/services/auth.service.ts:132-164 | From any reachable state, with no login of the user and no force-activation, the wrong passwords compared within T milliseconds number at most Allowance(T) |
| `Lockout.AllowanceClosed` | src/services/auth.service.ts:132-164 | Allowance(T) is maxAttempts * (T / lockMs + 1) |
| `Lockout.BoundReached` | src/services/auth.service.ts:132-164 | Guessing a full round at once and again whenever a lock ends makes exactly as many guesses as the bound allows, for every number of locks |
| `Lockout.NoLoginWhileLocked` | src/services/auth.service.ts:132-135 | While the lock holds every login attempt on the account fails, whatever the password, and changes nothing |
| `Lockout.AttemptsStayBelow` | src/repositories/user.repository.ts:58-78 | At every step boundary of every run the attempt counter is below the limit |
| `Lockout.WrongGuessCounts` | src/services/auth.service.ts:137-164 | Below the limit a compared wrong password raises the counter by one and keeps the lock; the one that reaches the limit sets the counter to zero and the lock to now plus the lock duration, and answers with that time; nothing else changes |
| `Lockout.LoginClears` | src/repositories/user.repository.ts:80-94 | A successful login clears counter and lock, writes the login time, and changes nothing else in any row |
| `LoginRace.RaceBound` | src/services/auth.service.ts:132-150 | With check, increment and lock as separate steps and at most k logins in flight, the wrong passwords compared within T milliseconds number at most the allowance for rounds of maxAttempts + k - 1 |
| `LoginRace.WidenedClosed` | src/services/auth.service.ts:132-150 | That allowance is (maxAttempts + k - 1) * (T / lockMs + 1) |
| `LoginRace.OvershootReached` | src/services/auth.service.ts:132-164 | For every k and every number of locks some such run compares exactly that many |
| `OneShotRuns.ConsumedOnce` | src/services/token.service.ts:96-134 | A verification or reset token is consumed no later than its expiry, and then never works again |
| `OneShotRuns.WorksWithinLifetime` | src/repositories/token.repository.ts:69-84 | A mailed token, if it ever works, works for the user it was mailed to and within its lifetime from the mailing |
| `OneShotRuns.RegistrationTokenWithinLifetime` | src/services/auth.service.ts:87-88 | The token mailed at registration, if it ever works, works for the new user and within its lifetime |
| `MailVerdicts.MailedWorksIff` | src/repositories/token.repository.ts:69-130 | From any valid state on, a mailed token works, for its addressee, if and only if its lifetime has not passed and it was not presented, superseded by a newer mail, retired by a forced activation or deleted with its user |
| `MailVerdicts.RegistrationTokenWorksIff` | src/services/auth.service.ts:87-88 | The same for the token mailed at registration |
| `MailVerdicts.MailingIff` | src/services/auth.service.ts:287-326 | A token is mailed exactly for an unverified account, or for an active one if it is for a reset, and stands for the user with that email |
| `OneShotRuns.SupersededNeverWorks` | src/repositories/token.repository.ts:115-130 | Mailing a new token makes every earlier one of that user and kind unusable for good |
| `OneShotRuns.AtMostOneUnusedEach` | src/repositories/token.repository.ts:69-84 | At every step boundary a user has at most one unused token of each kind |
| `OneShotRuns.FinishedForever` | src/repositories/token.repository.ts:94-111 | A used or deleted one-shot token never works again |
| `OneShot.CreateKeepsOne` | src/repositories/token.repository.ts:69-84 | Invalidate-then-create keeps at most one unused token per user and retires the earlier ones |
| `UserCache.GetMeRefinesRead` | src/services/auth.service.ts:447-457 | In every run the cached read answers as an uncached one up to the last login time, and reports not-found exactly for absent users |
| `UserCache.GetMeExactIff` | src/services/auth.service.ts:447-457 | In every run the cached answer is exact if and only if nothing live is cached, or no login of the user at a later millisecond than the copy's login time has succeeded since the copy was written |
| `UserCache.LoginLeavesStaleCopy` | src/services/auth.service.ts:171-173 | Right after a login the cached profile still shows the login before |
| `UserCache.ReadCachesFiveMinutes` | src/services/auth.service.ts:447-457 | A read past the cache stores what it answers for exactly five minutes |
| `Passwords.EnforceHistory` | src/services/auth.service.ts:662-672 | The loop accepts a password exactly when it matches none of the newest retained hashes |
| `Passwords.StoreHistory` | src/repositories/user.repository.ts:184-201 | Insert, then delete the rows past the limit in ascending order: what remains is the specified history, and in creation order if the rows before it were |
| `Passwords.RetainsOldest` | src/repositories/user.repository.ts:184-201 | After any additions under a fixed limit the history is exactly the first limit hashes ever added |
| `Passwords.DocumentedIff` | src/repositories/user.repository.ts:184-201 | The documented last-N history is what is kept if and only if no more than N passwords were ever set |
| `Passwords.LatePasswordReusable` | src/services/auth.service.ts:662-672 | A password set after the history filled up, and not among the first, is accepted again |
| `Passwords.AcceptedIsFresh` | src/services/auth.service.ts:662-672 | An accepted password matches none of the retained hashes |
| `PasswordRuns.HistoryOnlyGrows` | src/repositories/user.repository.ts:184-201 | In every run a user's history only grows at its end, up to the limit: no retained hash is dropped while the user exists |
| `PasswordRuns.FrozenOnceFull` | src/repositories/user.repository.ts:188-196 | Once full, the history never changes again, whatever passwords the user sets |
| `PasswordRuns.AcceptedIff` | src/services/auth.service.ts:662-672 | A new password is stored if and only if it matches none of the user's retained hashes |
| `Reuse.ChangeWorksIff` | src/services/auth.service.ts:368-405 | From registration on, through any calls, a change goes through if and only if the current password is the one last set, the new one is strong, and it is none of the first ones ever set, as many as the limit says |
| `Resolver.LastOverrideWins` | src/repositories/app.repository.ts:444-458 | A key is granted if and only if the last override on it grants it, or none is on it and the role has it; no key is listed twice |
| `Resolver.SetFormula` | src/repositories/app.repository.ts:483-496 | When no key is both granted and revoked the result is (role + grants) - revokes |
| `Resolver.DistinctIsConsistent` | src/repositories/app.repository.ts:400-416 | Distinct override keys never clash, so the set formula and order independence apply to them |
| `Resolver.OrderIrrelevantIff` | src/repositories/app.repository.ts:483-496 | The result is the same for every permutation of the rows if and only if no key is both granted and revoked |
| `Resolver.MovedRowDecides` | src/repositories/app.repository.ts:448-451 | Whatever row is put last decides its key |
| `SilentCalls.ResolversMean` | src/repositories/app.repository.ts:428-500 | Told by the rows alone: the bulk resolver lists active access to active apps, the per-app one any active access, and either lists a key exactly if the last override on it grants it, or none is on it and the role has it |
| `AclProofs.OwnFeaturesDistinct` | src/repositories/app.repository.ts:400-416 | Overrides on the app's own features never clash, because keys are unique per app and createMany refuses duplicates |
| `AclProofs.StepValid` | src/services/acl.service.ts:445-448 | Every RBAC call keeps the foreign keys; in particular a user's role in an app is a role of that app |
| `AclProofs.InvalidationComplete` | src/services/acl.service.ts:333-426 | A user whom a non-silent call does not sign out resolves to exactly the same permissions after it |
| `AclProofs.SilentCallsChangeResolution` | src/services/acl.service.ts:430-470 | Suspending, reactivating and assigning do change the resolution and sign nobody out |
| `AclProofs.EditRaisesVersion` | src/services/acl.service.ts:342-346 | A successful role edit or feature change raises the version by one |
| `AclProofs.RoleStep` | src/services/acl.service.ts:402-406 | What any call does to a role that survives it: the version never falls, and at an equal version the role is unchanged, or has lost a feature exactly if the call deleted one of its features |
| `AclProofs.NotStaleMeansRoleCurrent` | src/services/acl.service.ts:570-584 | If the stale flag is down and the user kept the role, the role part of the snapshot is what the role says now |
| `AclProofs.RemovedFeatureKeepsVersion` | src/services/acl.service.ts:189-203 | Deleting a feature takes it from the role without changing the version or ending a session |
| `AclProofs.SyncDecidedOnce` | src/services/acl.service.ts:245-300 | A decided sync request is never decided or applied again |
| `RbacRuns.RunRole` | src/services/acl.service.ts:342-346 | Between any two moments of a run a surviving role's version never falls, and at an equal version the role is unchanged unless one of its features was deleted |
| `RbacRuns.EqualVersionsIff` | src/services/acl.service.ts:402-406 | Equal versions mean equal roles if and only if no feature of the role was deleted in between |
| `RbacRuns.NotStaleInRun` | src/services/acl.service.ts:570-584 | The stale-flag guarantee for a token signed at one state and checked at any later one, when no feature of that very role was deleted in between |
| `RbacRuns.RoleBelongsToApp` | src/services/acl.service.ts:482-485 | In every run the role of an access row belongs to the row's app |
| `RbacRuns.DecidedForever` | src/services/acl.service.ts:245-300 | In every run an approved or rejected request stays as it is, and approving it again fails |
| `AclRuns.ShownAsLastGiven` | src/repositories/app.repository.ts:428-500 | From any sound state on, a user whose access as last given is on and under a role, without standing overrides, is shown the role's name and version and exactly the keys the role was last given and that were not removed since; the bulk resolver exactly while the app is switched on |
| `AclRuns.FeatureInRoleIff` | src/services/acl.service.ts:393-426 | Through any run a role has exactly the features of the last setting, less those removed since |
| `AclRuns.AccessIsLastGiven` | src/services/acl.service.ts:430-534 | Through any run a user's access to an app, its role and its status, is what the last calls about it said |
| `AclRuns.OverridesAreLastSet` | src/services/acl.service.ts:536-557 | Through any run the overrides of an access row are those last set, less those on features removed since |
| `AclRuns.KeysAreLastGiven` | src/services/acl.service.ts:143-275 | Through any run an app has exactly the keys added or approved and not removed since |
| `AclRuns.StatusIsLastSet` | src/services/acl.service.ts:83-119 | An app is active or not as the last suspension or reactivation left it, and never disappears |
| `AclRuns.NamesStayUnique` | prisma/schema.prisma:250-320 | In every run app names are unique, and role names within an app |
| `AclEffects.RoleHasExactly` | src/repositories/app.repository.ts:277-290 | Setting the features of a role succeeds exactly for distinct existing ones; the role then has these and no other, and no other role changes |
| `AclEffects.HoldersListExactly` | src/services/acl.service.ts:393-426 | After it an active holder is shown a key if the last override on it grants it; without one, exactly if one of the role's new features carries it |
| `AclEffects.ApprovalApplies` | src/services/acl.service.ts:245-275 | An approval closes the request; the keys are then the old and the submitted ones, existing features keep their ids, and nothing unsubmitted changes |
| `AclEffects.ApprovalWrites` | src/services/acl.service.ts:254-257 | An approval writes the last display name and the last description submitted for each key, and leaves an absent description alone |
| `AclEffects.RejectionAppliesNothing` | src/services/acl.service.ts:277-300 | A rejection closes the request and changes no feature |
| `AclEffects.AssignmentGives` | src/services/acl.service.ts:430-470 | An assignment goes through exactly under its guards, and gives active access with that role and no override |
| `AclEffects.AccessChanges` | src/services/acl.service.ts:472-502 | A change of access sets the role and status it names, an explicit null clears the role, and what is not mentioned stays |
| `AclEffects.RemovalTakes` | src/services/acl.service.ts:504-534 | A removal leaves no access row of the user in the app, and neither resolver shows the app |
| `AclEffects.OverridesDecide` | src/services/acl.service.ts:536-557 | After setting overrides a key is shown if the last given override on it grants it; without one, if the role has it |
| `AclEffects.RoleIsEdited` | src/services/acl.service.ts:333-366 | A role edit writes the given columns and leaves the others, the features and every other role |
| `AclEffects.RoleIsDeleted` | src/services/acl.service.ts:368-385 | A deleted role is gone and no access row names it; overrides, status and all other roles stay |
| `AclEffects.FeatureIsRemoved` | src/services/acl.service.ts:189-203 | A removed feature is gone from the table, from every role and every override, and nothing else is |
| `AclEffects.FeatureIsEdited` | src/services/acl.service.ts:166-187 | An edit of a feature writes the given texts and leaves all keys, ids and other features |
| `AclEffects.StaleFlagIff` | src/services/acl.service.ts:570-584 | The stale flag is up exactly for active access whose role has another version than the token carries, zero standing for no role |
| `Features.ApproveManifest` | src/services/acl.service.ts:254-257 | The loop over the submitted features upserts them one after the other |
| `Features.ApprovalExtends` | src/repositories/app.repository.ts:116-126 | Approval keeps ids unique, keeps existing ids, and touches no unsubmitted row and no other app |
| `Features.ApprovalKeys` | src/repositories/app.repository.ts:116-126 | After approval the keys are exactly the old ones and the submitted ones |
| `Features.LastDisplayNameWins` | src/repositories/app.repository.ts:116-126 | The last duplicate of a key decides its display name |
| `Features.LastDescriptionWins` | src/repositories/app.repository.ts:116-126 | The last description present for a key is stored |
| `Features.AbsentDescriptionKept` | src/repositories/app.repository.ts:116-126 | A key submitted without description keeps its old one |
| `Features.ApprovalIdempotent` | src/services/acl.service.ts:245-275 | Applying the same manifest twice equals applying it once |
| `PermKeys.PermKeyInjective` | src/services/cache.service.ts:85-87 | The key determines user, app and version as soon as user ids or app ids are free of colons |
| `PermKeys.KeysCollide` | src/services/cache.service.ts:85-87 | With colons in both ids two different lookups can share a key |
| `PermKeys.DecimalRoundTrip` | src/services/cache.service.ts:85-87 | The decimal form of a version reads back as the version |
| `PermCache.BoundedStaleness` | src/controllers/check.controller.ts:36-49 | With lookup, resolution and store interleaved arbitrarily under arbitrary database changes, every answer at time t was true at some moment of [t - 60 s - delta, t] |
| `PermCache.CacheIsLastStore` | src/services/cache.service.ts:89-101 | In every run the cache holds under a key what was last stored under it: no change of the database touches it |
| `PermCache.ServedUntilExpiry` | src/services/cache.service.ts:89-101 | From any state a stored list is served for exactly sixty seconds, whatever the database says by then, unless another store on the key intervenes |
| `PermCache.LookUpCurrentIff` | src/controllers/check.controller.ts:36-49 | In every run a lookup answers the present truth if and only if no store under its key was less than sixty seconds ago, or the list stored then still is the truth |
| `PermCache.BatchCheck` | src/controllers/check.controller.ts:91-113 | The batch loop answers each requested key as the single check would, and nothing else |
| `CheckController.Controller.ResolveFeatures` | src/controllers/check.controller.ts:36-49 | Read through: the cached list or the database's, and the cache afterwards |
| `CheckController.Controller.CheckOne` | src/controllers/check.controller.ts:66-89 | A single request is allowed exactly when the feature is in the read-through list |
| `CheckController.Controller.CheckBatch` | src/controllers/check.controller.ts:91-113 | A batch request answers as single checks against the same cache and database |
| `CheckController.CallIsThreeEvents` | src/controllers/check.controller.ts:36-49 | An uninterrupted call is the three protocol events in a row |
| `Quota.CounterExact` | src/services/cache.service.ts:149-175 | At any moment the counter read is exactly the number of increments made that UTC day: it never expires inside its own day |
| `Quota.AdmissionBound` | src/middleware/quota.middleware.ts:40-60 | Whenever a request is admitted, the org's admissions of that day are at most the plan's limit then plus the requests in flight |
| `Quota.DailyBound` | src/middleware/quota.middleware.ts:40-60 | With at most k requests between read and increment no day sees more than limit + k - 1 admitted |
| `Quota.OvershootReached` | src/middleware/quota.middleware.ts:40-60 | For every plan and k some such run admits exactly limit + k - 1 |
| `Quota.Middleware.EnforceApiCallQuota` | src/middleware/quota.middleware.ts:22-65 | The middleware passes or rejects and updates its state as the protocol step says |
| `Quota.Middleware.IncrementApiCalls` | src/services/cache.service.ts:154-165 | The background increment is the protocol step, and returns the new count |
| `OAuthTraces.EveryTokenTraced` | src/services/oauth.service.ts:219-278 | Every token response goes back to an earlier authorization request: same client and app, redirect URI registered then and presented again, S256(verifier) = challenge, the active user whose password was right, equal scopes, at most 120 s later; it names the user's email and the app's organization, and lives one hour, the refresh token thirty days (RFC 6749 sections 4.1.2 and 4.1.3, RFC 7636 section 4.6) |
| `OAuthEffects.EmailTraced` | src/services/oauth.service.ts:250-278 | The email in a token response is the one the user gave with the authorization request it goes back to |
| `OAuthTraces.TracedInjectively` | src/services/oauth.service.ts:232-245 | Two token responses never go back to the same authorization request |
| `OAuthTraces.RedeemedOnce` | src/services/oauth.service.ts:232-245 | Two token responses never come from the same code, nor carry the same refresh token id |
| `OAuthTraces.ExchangeSpends` | src/services/oauth.service.ts:245-248 | Once a code passes the checks it is spent for good, even when its user is gone |
| `OAuthTraces.CodeOrigin` | src/services/oauth.service.ts:197-210 | A stored code was issued by one earlier request and still says what that request said |
| `OAuthTraces.RotatedSecretNeverWorks` | src/services/oauth.service.ts:120-141 | After a secret is regenerated no earlier secret ever redeems a code for that app |
| `OAuthEffects.SecretWorksIff` | src/services/oauth.service.ts:120-141 | From the creation of an app on, through any calls, a client authenticates as it if and only if the app stands and the secret is the one last handed out |
| `OAuthEffects.UriCountsIff` | src/services/oauth.service.ts:165-217 | And an authorization request for it gets a code if and only if its redirect URI is among those last registered, type and method are right, and the credentials are |
| `OAuthEffects.CreationHandsOut` | src/services/oauth.service.ts:42-81 | An app is created exactly below the plan's limit; the client id and secret handed out are the only ones it authenticates with |
| `OAuthEffects.EditWrites` | src/services/oauth.service.ts:96-118 | An edit by the owning organization writes what was given and leaves the rest, client id and secret included |
| `OAuthEffects.DeletionTakes` | src/services/oauth.service.ts:143-161 | A deletion by the owning organization leaves neither app nor client id nor codes, and everything else |
| `OAuthTraces.DeletionKillsCodes` | src/services/oauth.service.ts:143-161 | Deleting an app makes every code issued to it unusable for good |
| `OAuth.AuthorizeIff` | src/services/oauth.service.ts:165-217 | A code is issued exactly when response type, method, client, redirect URI and credentials check out; it is fresh and carries the request |
| `OAuthTraces.RedeemableIff` | src/services/oauth.service.ts:219-278 | After any further calls, an exchange of an issued code gets tokens if and only if it repeats the authorization request's client and redirect URI with the verifier behind its challenge, within 120 s, while the app stands and under its present secret, for a user who still exists, and no exchange used the code before |
| `OAuth.StepValid` | src/repositories/oauth.repository.ts:89-119 | Every call keeps ids fresh, the client index exact, and every code under an existing app |
| `Scopes.NormalisedScope` | src/services/oauth.service.ts:197-197 | A scope string and its normalised form name the same scopes |
| `Scopes.JoinRoundTrip` | src/services/oauth.service.ts:258-276 | Joining words with spaces and splitting again gives the words back |
| `Audit.AuditStore.RunCleanup` | src/services/audit-cleanup.service.ts:8-55 | After an error-free run at a fixed time a log survives exactly if its age is within its owner's retention, and the total is rows before minus rows after |
| `Audit.SurvivorsByPlan` | src/services/audit-cleanup.service.ts:15-39 | The passes over all plans delete exactly the owned logs past their own plan's retention |
| `Audit.SecondRunDeletesNothing` | src/services/audit-cleanup.service.ts:8-55 | A second run at the same time deletes nothing |
| `Audit.YoungLogsSurvive` | src/constants/plans.constants.ts:14-55 | No clean-up deletes a log younger than seven days |
| `AuthServices.TokenService.BlacklistAccessToken` | src/services/token.service.ts:65-70 | The key is written only when a whole second remains, with exactly that lifetime |
| `AuthServices.TokenService.IsAccessTokenRevoked` | src/services/token.service.ts:71-80 | True exactly for a listed jti or an iat before the live revocation second |
| `AuthServices.TokenService.VerifyAndConsumeRefreshToken` | src/services/token.service.ts:31-50 | Succeeds exactly for a usable token, and then its row is revoked; otherwise nothing changes |
| `AuthServices.TokenService.ConsumeEmailVerificationToken` | src/services/token.service.ts:96-109 | Accepts exactly an unused unexpired token and marks it used |
| `AuthServices.TokenService.ConsumePasswordResetToken` | src/services/token.service.ts:121-134 | Accepts exactly an unused unexpired token and marks it used |
| `AuthServices.TokenService.EndSessions` | src/services/acl.service.ts:595-601 | The three writes of a session invalidation leave the store as Kill says |
| `AuthServices.AuthService.Authenticate` | src/middleware/auth.middleware.ts:16-36 | Accepts exactly the tokens the acceptance predicate accepts |
| `AuthServices.AuthService.Register` | src/services/auth.service.ts:67-107 | Store and outcome afterwards are those of the machine's registration |
| `AuthServices.AuthService.OrgRegisterUser` | src/services/org.service.ts:260-313 | Store and outcome afterwards are those of the machine's registration by an organization |
| `AuthServices.AuthService.Login` | src/services/auth.service.ts:111-184 | Store and outcome afterwards are those of the machine's login |
| `AuthServices.AuthService.IssueTokens` | src/services/auth.service.ts:626-660 | Store and outcome afterwards are those of the machine's issue step, the claims email, role, organization and permissions included |
| `AuthServices.AuthService.RefreshTokens` | src/services/auth.service.ts:236-258 | Store and outcome afterwards are those of the machine's refresh |
| `AuthServices.AuthService.Logout` | src/services/auth.service.ts:188-207 | Store and outcome afterwards are those of the machine's logout |
| `AuthServices.AuthService.LogoutAll` | src/services/auth.service.ts:211-232 | Store and outcome afterwards are those of the machine's logout-all |
| `AuthServices.AuthService.VerifyEmail` | src/services/auth.service.ts:262-283 | Store and outcome afterwards are those of the machine's verification |
| `AuthServices.AuthService.ResendVerificationEmail` | src/services/auth.service.ts:287-305 | Store and outcome afterwards are those of the machine's resend |
| `AuthServices.AuthService.ForgotPassword` | src/services/auth.service.ts:309-326 | Store and outcome afterwards are those of the machine's reset request |
| `AuthServices.AuthService.ResetPassword` | src/services/auth.service.ts:330-364 | Store and outcome afterwards are those of the machine's reset |
| `AuthServices.AuthService.ChangePassword` | src/services/auth.service.ts:368-405 | Store and outcome afterwards are those of the machine's change |
| `AuthServices.AuthService.UpdateMe` | src/services/auth.service.ts:409-443 | Store and outcome afterwards are those of the machine's profile edit |
| `AuthServices.AuthService.GetMe` | src/services/auth.service.ts:447-457 | Store and outcome afterwards are those of the machine's read-through |
| `AuthServices.AuthService.SuspendUser` | src/services/auth.service.ts:479-499 | Store and outcome afterwards are those of the machine's suspension |
| `AuthServices.AuthService.ActivateUser` | src/services/auth.service.ts:501-518 | Store and outcome afterwards are those of the machine's activation |
| `AuthServices.AuthService.ForceActivateUser` | src/services/auth.service.ts:520-550 | Store and outcome afterwards are those of the machine's force-activation |
| `AuthServices.AuthService.UpdateUser` | src/services/auth.service.ts:552-587 | Store and outcome afterwards are those of the machine's administrator edit |
| `AuthServices.AuthService.DeleteUser` | src/services/auth.service.ts:589-605 | Store and outcome afterwards are those of the machine's deletion with its cascades |
| `AclServices.AclService.InvalidateUsers` | src/services/acl.service.ts:588-593 | Ending sessions one user after the other ends exactly the given users' sessions |
| `AclServices.AclService.InvalidateRoleUsers` | src/services/acl.service.ts:588-593 | Every active holder of the role is signed out, nobody else |
| `AclServices.AclService.RegisterApp` | src/services/acl.service.ts:17-47 | Store and outcome afterwards are those of the RBAC machine's registration |
| `AclServices.AclService.SetAppStatus` | src/services/acl.service.ts:83-119 | Store and outcome afterwards are those of the RBAC machine's suspension or reactivation |
| `AclServices.AclService.AddFeature` | src/services/acl.service.ts:143-164 | Store and outcome afterwards are those of the RBAC machine's feature creation |
| `AclServices.AclService.UpdateFeature` | src/services/acl.service.ts:166-187 | Store and outcome afterwards are those of the RBAC machine's feature edit |
| `AclServices.AclService.RemoveFeature` | src/services/acl.service.ts:189-203 | Store and outcome afterwards are those of the RBAC machine's feature removal with its cascades |
| `AclServices.AclService.SubmitFeatureSync` | src/services/acl.service.ts:213-234 | Store and outcome afterwards are those of the RBAC machine's submission |
| `AclServices.AclService.ApproveSyncRequest` | src/services/acl.service.ts:245-275 | Store and outcome afterwards are those of the RBAC machine's approval |
| `AclServices.AclService.RejectSyncRequest` | src/services/acl.service.ts:277-300 | Store and outcome afterwards are those of the RBAC machine's rejection |
| `AclServices.AclService.CreateRole` | src/services/acl.service.ts:304-325 | Store and outcome afterwards are those of the RBAC machine's role creation |
| `AclServices.AclService.UpdateRole` | src/services/acl.service.ts:333-366 | Store and outcome afterwards, the edited columns included, are those of the RBAC machine's role edit |
| `AclServices.AclService.DeleteRole` | src/services/acl.service.ts:368-385 | Store and outcome afterwards are those of the RBAC machine's role deletion |
| `AclServices.AclService.SetRoleFeatures` | src/services/acl.service.ts:393-426 | Store and outcome afterwards are those of the RBAC machine's feature change |
| `AclServices.AclService.AssignUserToApp` | src/services/acl.service.ts:430-470 | Store and outcome afterwards are those of the RBAC machine's assignment |
| `AclServices.AclService.UpdateUserAppAccess` | src/services/acl.service.ts:472-502 | Store and outcome afterwards are those of the RBAC machine's access edit |
| `AclServices.AclService.RemoveUserFromApp` | src/services/acl.service.ts:504-534 | Store and outcome afterwards are those of the RBAC machine's removal |
| `AclServices.AclService.SetUserDirectFeatures` | src/services/acl.service.ts:536-557 | Store and outcome afterwards are those of the RBAC machine's override change |
| `AclServices.AclService.GetUserPermissionsForApp` | src/services/acl.service.ts:570-584 | Returns the per-app resolution and the stale flag |
| `Storage.Store.SetRoleFeatureRows` | src/repositories/app.repository.ts:277-290 | Delete-then-insert succeeds exactly for distinct existing ids; otherwise the rows are rolled back |
| `Storage.Store.SetUserFeatureRows` | src/repositories/app.repository.ts:400-416 | Delete-then-insert succeeds exactly for distinct existing ids; otherwise the rows are rolled back |
| `Storage.Store.ResolveUserPermissions` | src/repositories/app.repository.ts:428-462 | The loop over the user's apps fills exactly the resolution of all active apps |
| `Storage.Store.ResolveUserPermissionsForApp` | src/repositories/app.repository.ts:464-500 | The per-app resolution, present exactly for an active access row |
| `Storage.Store.GetUserIdsByRole` | src/repositories/app.repository.ts:313-323 | Exactly the users with an active row on the role |
| `Storage.Store.RevokeAllUserRefreshTokens` | src/repositories/token.repository.ts:44-54 | Exactly the user's rows become revoked |
| `Storage.Store.CreateEmailVerificationToken` | src/repositories/token.repository.ts:69-84 | Earlier tokens of the user are invalidated and one new row is added |
| `Storage.Store.CreatePasswordResetToken` | src/repositories/token.repository.ts:115-130 | Earlier tokens of the user are invalidated and one new row is added |
| `Storage.Store.LockAccount` | src/repositories/user.repository.ts:69-78 | The lock is set and the counter reset, nothing else changes |
| `Storage.Store.ResetLoginAttempts` | src/repositories/user.repository.ts:80-94 | Counter and lock are cleared and the login time set, nothing else changes |
| `Storage.Store.DeleteUserRow` | src/repositories/user.repository.ts:129-135 | The user's row and everything that refers to it are gone, nothing else changes |
| `OAuthServices.OAuthService.CreateApp` | src/services/oauth.service.ts:42-81 | Tables and outcome afterwards are those of the OAuth machine's app creation under the plan limit |
| `OAuthServices.OAuthService.UpdateApp` | src/services/oauth.service.ts:96-118 | Tables and outcome afterwards are those of the OAuth machine's app edit |
| `OAuthServices.OAuthService.RegenerateSecret` | src/services/oauth.service.ts:120-141 | Tables and outcome afterwards are those of the OAuth machine's secret change |
| `OAuthServices.OAuthService.DeleteApp` | src/services/oauth.service.ts:143-161 | Tables and outcome afterwards are those of the OAuth machine's app deletion with its codes |
| `OAuthServices.OAuthService.Authorize` | src/services/oauth.service.ts:165-217 | Tables and outcome afterwards are those of the OAuth machine's authorization step |
| `OAuthServices.OAuthService.CheckCode` | src/services/oauth.service.ts:232-243 | The chain of checks on a code passes exactly when all of them hold |
| `OAuthServices.OAuthService.ExchangeCode` | src/services/oauth.service.ts:219-278 | Tables and outcome afterwards are those of the OAuth machine's exchange step |
| `Server.Server.Handle` | src/services/auth.service.ts:64-673 | Any session or RBAC call to the services is a step of the machine, keeps the invariant and the foreign keys of the store, and ends exactly the sessions it should |
| `Server.Server.Serve` | src/services/auth.service.ts:64-673 | Serving any sequence of calls is a run of the machine from the store as it was, so every theorem about runs holds of the services |
| `Server.Server.HandleOAuth` | src/services/oauth.service.ts:42-278 | Any OAuth call, and any session call next to it, is a step of the OAuth machine and keeps its invariant |

## Left out

- The model reads configuration as numbers; parsing of `15m`-style lifetimes and the environment is left out.
- AuthServices.AuthService.IssueTokens: the org role in the access token claims is left out, because memberships are not part of this model.
- Secrets of RBAC apps: a sync submission names its app directly instead of presenting the secret that finds it.
- `deleteExpiredRefreshTokens` has no caller; in `ConsumeRace` a row may disappear at any time.
- Lockout.LockoutBound: counts guesses at login, one call at a time (`LoginRace.RaceBound` lets them overlap); `authorize` and `changePassword` compare passwords without the counter.
- LoginRace.RaceBound: every guess is wrong; a right password in between clears the counter, as in `Lockout.LockoutBound`.
- Snapshots.AcceptedSnapshotsAreCurrent: says nothing of a token once a silent call has unsettled its user, because the code does not sign the user out then; `SilentCallStaleIff` and `RemovalStaleIff` say exactly when that makes the token stale.
- Snapshots.RemovalStaleIff: where another feature of the same access row has the same key (an override on a foreign app's feature), only the change of the key set is exact (`SilentCalls.RemovalChangesKeysIff`), not that of the list's order.
- AclRuns.ShownAsLastGiven: with standing overrides the order of their rows decides; `SilentCalls.ResolversMean` and `AclEffects.OverridesDecide` tell that case by the rows.
- PermCache.BoundedStaleness: the features of a user are an arbitrary map that changes arbitrarily; role versions are numbers.
- Quota.DailyBound: UTC days are numbered; that the date in the key names the day one to one is taken for granted, and INCR with its EXPIRE is one step.
- Audit.AuditStore.RunCleanup: the branch that logs a failed deletion and goes on to the next plan is left out.
- Storage.Store.AddPasswordHistory: calls the history function; the transaction's own loop is `Passwords.StoreHistory`.
- Passwords.StoreHistory: row ids are positions in creation order; in which order the database returns rows of the same millisecond is left out.
- Storage.Store.FindByEmail: stands in for the query by the unique email index.
- User listing, search and pagination, `verifyTokenInternal` and token introspection (single-branch reads), and `updateApp` of an RBAC app, which edits its display columns.
- Webhooks, notifications, email jobs, audit writing, rate limits, monthly active users, org CRUD, memberships and API keys: easy members or library behaviour.
- Express routing, validation, HTTP responses and key handling of jsonwebtoken, Prisma, Redis and bcrypt.
