# Verification models of the learning platform

Dafny models of four parts of the platform, with proofs about them.

**Sessions and identity.** `Identity` holds the tables of the Auth service,
`Requests` what one request does to them when every commit succeeds, and
`SessionMachine` and `SessionRuns` the machine of whole runs: 21 kinds of
request, Auth's user-state cache and the clock. `Persistence` and `Services`
are the repositories and services as classes over one database session; each
service method is proved to end with the reply `Requests` specifies, or, when a
commit is refused, at the stage its last successful commit reached.
`RequestLaws` says column by column what each request gives its caller and how
requests answer each other, `InterruptedRequests` what repeating a request does
whose later commits failed. `Staleness` and `SessionGuard` are the tests on
access tokens and the gateway's guard, `GuardLaws` what the guard makes of what
Auth answers.
Three machines interleave: `ResetRace` the statements of overlapping password
resets under row locks, and `LookupTiming` reading a row, filling both caches
and acting on the answer while the row changes; `MixedRuns` lets any request
run between the statements of resets.

**Section tokens.** `Apportionment` is the largest-remainder method and its
optimality, `SectionTokens` the code that collects the weights and hands the
tokens out, `PayloadMerge` the merge of regenerated sections and the cut to
requested sections, over the payloads of `Payloads`.

**Response cache and streaks.** `MemoryCache` is the provider over a bounded
store and the manager in front of it, `CacheKeys` the normalised and hashed
keys, `Streaks` the two streak rules.

**Printers and parsers.** `ExampleParser` is the line parser for example
blocks, `SheetCells` column names and cell references, `PdfFile` and
`PdfReport` the PDF writer together with a reader that follows its
cross-reference table (sections 7.3.4.2 and 7.5.4 of ISO 32000-1).

`Outcomes` and `Text` are shared. `dafny verify dfyconfig.toml` checks the
whole project.

Where code that promises a property does not have it, the model keeps the code
and a lemma gives the exact condition:

- `rotate_token` promises never two valid tokens; it does not look at the old
  row's flag, so two refreshes that race fork the chain
  (`SessionRuns.RotationKeepsChainsExactlyWhen`, `RacingRefreshesForkTheChain`).
- Blocking and deactivating commit before they revoke
  (`SessionRuns.InterruptedLockout`), and an interrupted lockout cannot be
  completed by repeating it (`InterruptedRequests.LockoutCannotBeRepeated`).
- A session opened while a reset is revoking outlives it
  (`ResetRace.CommitIsAtomicExactlyWhen`).
- An invalidation of the user-state cache takes hold at once only if no older
  reading is in flight (`LookupTiming.InvalidationTakesHoldExactlyWhen`).
- A login or refresh checked before a lockout and written after it leaves a
  session of a locked-out user (`SessionRuns.LateTokenKeepsSessionsExactlyWhen`,
  `LateRotationKeepsSessionsExactlyWhen`, `LoginOvertakenByBlock`).
- Incremental merging composes, and cutting before merging is neutral, only if an
  absent `feature` is not borrowed differently (`PayloadMerge.MergesCompose`,
  `LoanGoesStale`, `FilterThenMerge`, `CutPayloadDoesNotLend`).
- The PDF text cut at 120 characters can swallow the closing parenthesis
  (`PdfReport.LiteralIsClosedExactlyWhen`, `ParenthesisAtTheCut`), and the note about omitted rows is
  never printed (`PdfReport.OnlyTheFirstRowsArePrinted`).
- Long cache-key segments are hashed with their capitals
  (`CacheKeys.CaseIsIgnoredExactlyWhenShort`, `LongCapitalsAreKept`).

## Model

| member | source | states |
|---|---|---|
| SessionRuns.RunsAreSound | services/auth_service/app/services/auth_service.py:61-233 | Every run of Auth requests, with any clock, keeps the whole table invariant (users and e-mail index agree, flags agree with timestamps, live sessions belong to accessible users, one live token per login, one unused one-time token per user and kind) and a cache equal to the table |
| SessionMachine.ServeKeepsTablesSound | services/auth_service/app/services/auth_service.py:61-233 | Each single request of any of the 21 kinds keeps that invariant |
| SessionRuns.LiveTokensBelongToAccessibleUsers | services/auth_service/app/services/account_service.py:80-98 | In every reachable state an unrevoked refresh token belongs to an existing, active, unblocked user |
| SessionRuns.FlagsAgreeWithTimestamps | services/auth_service/app/services/admin_user_management_service.py:99-232 | In every reachable state an account is active iff `disabled_at` is unset and blocked iff `blocked_at` is set |
| SessionRuns.OneLiveTokenPerLogin | services/auth_service/app/repositories/refresh_token_repository.py:76-123 | Over every run the rotation chain of one login has at most one unrevoked token |
| SessionRuns.OneUnusedTokenPerUser | services/auth_service/app/services/password_reset_service.py:88-114 | Over every run a user has at most one unused reset token and at most one unused verification token |
| SessionRuns.CacheStaysCoherent | services/auth_service/app/services/user_state_service.py:24-47 | One request turns a cache that agrees with the users table into one that agrees with the new table: every change of a reported column invalidates |
| SessionRuns.CacheHitsAreExact | services/auth_service/app/services/user_state_service.py:24-42 | A cached state in any reachable state is what a lookup would compute from the table now |
| SessionRuns.ServeFrame | services/auth_service/app/services/auth_service.py:61-233 | No request un-revokes or un-uses a token, brings a deleted row back, changes a role, or changes the reported state of a user it does not drop from the cache |
| SessionRuns.SpentForever | services/auth_service/app/repositories/refresh_token_repository.py:76-141 | A refresh token that was revoked or deleted stays so for the rest of the run |
| SessionRuns.UsedUpForever | services/auth_service/app/services/one_time_token_validation.py:23-47 | A one-time token that was used stays used for the rest of the run |
| SessionRuns.RotatedAtMostOnce | services/auth_service/app/services/auth_service.py:152-204 | A refresh token is exchanged successfully at most once in a run |
| SessionRuns.ReuseRevokesEverySession | services/auth_service/app/services/auth_service.py:158-169 | Presenting a revoked token fails, leaves its user without live tokens and touches nobody else |
| SessionRuns.RedemptionNeedsUnusedToken | services/auth_service/app/services/one_time_token_validation.py:23-47 | A reset or verification succeeds iff its token exists, is unused, unexpired and its user exists, and then the token is used up |
| SessionRuns.RedeemedAtMostOnce | services/auth_service/app/services/email_verification_service.py:92-125 | A reset or verification token is redeemed at most once in a run |
| SessionRuns.LoginSucceedsExactlyWhen | services/auth_service/app/services/auth_service.py:92-138 | A login succeeds iff some account has the e-mail and password, is accessible and has an admitted role; it adds exactly one live token |
| SessionRuns.RefreshSucceedsExactlyWhen | services/auth_service/app/services/auth_service.py:140-219 | A refresh succeeds iff its token is live and unexpired and the role is admitted; it replaces exactly that token |
| SessionRuns.PasswordChangeEndsSessions | services/auth_service/app/services/password_management_service.py:61-95 | After a password change or reset no session of the user is live, but for the presented one when configured, and no state is cached |
| SessionRuns.LockoutTakesEffect | services/auth_service/app/services/admin_user_management_service.py:99-187 | After disabling, blocking or deactivating the user is inaccessible, has no live token and no cached state, and no other user changed |
| SessionRuns.DeletionLeavesNothing | services/auth_service/app/services/account_service.py:157-194 | After a deletion no table and no cache entry mentions the user |
| SessionRuns.TokenRejectedExactlyAfterPasswordChange | services/auth_service/app/services/auth_service.py:273-298 | An access token is rejected by Auth, and by the gateway judging the current row, exactly when a password change or reset of its user came after its minting (distinct clock readings); its role still matches |
| SessionRuns.TimestampGrowsExactlyOnChange | services/auth_service/app/services/password_management_service.py:61-76 | Between two points of a run the password timestamp grows if the password changed in between and is the same otherwise |
| SessionRuns.PasswordChangeRejects | services/auth_service/app/services/password_management_service.py:61-76 | A password change rejects exactly the tokens whose timestamp is below its clock reading |
| SessionRuns.TokensCarryTheirUsersTimestamp | services/auth_service/app/services/auth_service.py:117-123 | A minted access token carries the role and password timestamp of an accessible user as they stand after the request |
| SessionRuns.InterruptedLockout | services/auth_service/app/services/admin_user_management_service.py:99-127 | When the second commit of a block or deactivation fails, the session invariant survives iff the user had no live session, and cache coherence iff no entry was cached |
| SessionRuns.RotationKeepsChainsExactlyWhen | services/auth_service/app/repositories/refresh_token_repository.py:76-123 | The repository rotation, on tables another request may have changed since the check, keeps one live token per login iff the chain holds no live token besides the rotated one |
| SessionRuns.RacingRefreshesForkTheChain | services/auth_service/app/repositories/refresh_token_repository.py:76-123 | Two refreshes whose checks both pass on the same tables, the second rotating what the first one left, leave two live tokens of one login, against the docstring of `rotate_token` |
| SessionRuns.LateTokenKeepsSessionsExactlyWhen | services/auth_service/app/repositories/refresh_token_repository.py:25-54 | A login that inserts its token into other tables than it checked keeps every live session with an accessible user iff its user is still accessible there |
| SessionRuns.LateRotationKeepsSessionsExactlyWhen | services/auth_service/app/repositories/refresh_token_repository.py:76-123 | The same for a rotation |
| SessionRuns.LoginOvertakenByBlock | services/auth_service/app/services/auth_service.py:115-130 | A login checked before a block and inserting after it leaves the blocked user a live session |
| RequestLaws.PasswordIsTheRequestedOne | services/auth_service/app/services/password_management_service.py:61-69 | After a password change or reset the row of the user holds the requested password and the clock reading, its other columns and every other row are as they were |
| RequestLaws.NewPasswordLogsIn | services/auth_service/app/services/password_management_service.py:42-78 | After it exactly the new password logs in, while the account is accessible; any other is refused as invalid |
| RequestLaws.ChangingSetsThePassword | services/auth_service/app/services/password_management_service.py:42-95 | When a change is refused and with which error; otherwise the new password, its time, and every session revoked but the presented one when configured |
| RequestLaws.ResettingSetsThePassword | services/auth_service/app/services/password_reset_service.py:116-162 | When a reset is refused and with which error; otherwise the new password, the used token and every session revoked |
| RequestLaws.ForgottenPassword | services/auth_service/app/services/password_reset_service.py:88-162 | The token a reset request stores is the only unused one, sets the new password before its expiry and is refused from then on |
| RequestLaws.ResetRequestsLookAlike | services/auth_service/app/services/password_reset_service.py:88-114 | A reset request is answered alike for known and unknown addresses and changes nothing but reset tokens |
| RequestLaws.RegistrationOpensAnAccount | services/auth_service/app/services/auth_service.py:61-90 | A registration writes each column of an unverified, active, unblocked user and a token that expires after the configured time; a known address changes nothing |
| RequestLaws.RegisterThenLogin | services/auth_service/app/services/auth_service.py:61-138 | A fresh account logs in at once, unverified as it is, and its token verifies it exactly until it expires |
| RequestLaws.LoginFailures | services/auth_service/app/services/auth_service.py:92-114 | Which error a refused login gets: credentials before role before block before disable |
| RequestLaws.RefreshFailures | services/auth_service/app/services/auth_service.py:152-196 | Which error a refused refresh gets, in the order of the checks; only reuse changes anything |
| RequestLaws.SessionLifecycle | services/auth_service/app/services/auth_service.py:115-219 | The token a login stores is refreshed exactly until the configured time is over, and its successor gets a full time of its own |
| RequestLaws.LogoutEndsTheSession | services/auth_service/app/services/auth_service.py:221-233 | A logout revokes exactly the presented token; refreshing with it afterwards is reuse |
| RequestLaws.VerificationVerifies | services/auth_service/app/services/email_verification_service.py:92-125 | A verification sets the flag, sets the time for a user that was unverified, and uses up the token; nothing else changes |
| RequestLaws.ResendThenVerify | services/auth_service/app/services/email_verification_service.py:92-143 | A resend refuses verified users; the token it stores is the only unused one and verifies until it expires |
| RequestLaws.DisablingLocksOut | services/auth_service/app/services/account_service.py:63-106 | When disabling is refused and with which error; otherwise exactly the flag, its time and the sessions change |
| RequestLaws.BlockingLocksOut | services/auth_service/app/services/admin_user_management_service.py:99-128 | The same for a block, with its reason |
| RequestLaws.DeactivatingLocksOut | services/auth_service/app/services/admin_user_management_service.py:159-187 | The same for a deactivation |
| RequestLaws.DisableThenEnable | services/auth_service/app/services/account_service.py:63-155 | While disabled the login is refused; enabling gives the row back as it was, the sessions stay revoked |
| RequestLaws.DeactivateThenActivate | services/auth_service/app/services/admin_user_management_service.py:159-215 | Activating gives the row back as it was before the deactivation |
| RequestLaws.BlockThenUnblock | services/auth_service/app/services/admin_user_management_service.py:99-157 | While blocked neither login nor enabling works; unblocking gives the row back as it was, without a reason |
| RequestLaws.ReopeningFailures | services/auth_service/app/services/account_service.py:108-155 | Exactly when enabling, unblocking and activating succeed; a refusal changes nothing |
| RequestLaws.DeletionNeedsConsent | services/auth_service/app/services/account_service.py:157-194 | Exactly when the owner and the administration may delete, and which error they get otherwise |
| RequestLaws.OnlyTheSubjectChanges | services/auth_service/app/services/auth_service.py:61-233 | No request but the purge changes the row or a token of a user it is not about |
| RequestLaws.ColumnsChangeOnlyByTheirRequests | services/auth_service/app/services/auth_service.py:61-233 | E-mail and role never change, and each other column of a user only through the requests made for it |
| RequestLaws.SeedOpensOneSuperAdmin | services/auth_service/app/services/super_admin_seed_service.py:27-64 | The seed opens one verified super admin, none if there is one, and refuses a taken address |
| RequestLaws.PurgeRemovesExpired | services/auth_service/app/repositories/refresh_token_repository.py:254-270 | The purge removes exactly the tokens at or past their expiry |
| InterruptedRequests.RegistrationIsCompletedByResend | services/auth_service/app/services/auth_service.py:61-90 | An interrupted registration leaves an account that cannot be registered again but gets a token by a resend |
| InterruptedRequests.VerificationCanBeRepeated | services/auth_service/app/services/email_verification_service.py:92-125 | An interrupted verification can be repeated and ends as if it had not been interrupted |
| InterruptedRequests.TokenRequestsCanBeRepeated | services/auth_service/app/services/password_reset_service.py:88-114 | An interrupted reset request or resend has retired every token, can be repeated and ends the same |
| InterruptedRequests.DeletionCanBeRepeated | services/auth_service/app/services/account_service.py:157-194 | An interrupted deletion keeps the user without sessions, can be repeated and ends the same |
| InterruptedRequests.LockoutCannotBeRepeated | services/auth_service/app/services/admin_user_management_service.py:99-187 | Repeating an interrupted block or deactivation is refused and the sessions stay live |
| GuardLaws.AnswersAreTheRow | services/auth_service/app/services/user_state_service.py:24-42 | With a coherent cache a lookup answers the four columns of the row, and nothing for nobody |
| GuardLaws.AnswersShowAccess | services/auth_service/app/services/user_state_service.py:24-42 | In every reachable state the answered snapshot is active and unblocked iff the user may log in |
| GuardLaws.LockoutIsForbidden | services/gateway/app/auth/session_guard.py:94-122 | After a successful block, disable or deactivation the guard answers 403 to every access token of the user |
| GuardLaws.IssuedTokenIsForwarded | services/gateway/app/auth/session_guard.py:88-156 | The access token a login or refresh hands out passes the guard |
| GuardLaws.OldTokensAreUnauthorised | services/gateway/app/auth/session_guard.py:141-156 | After a password change the guard answers 401 to exactly the tokens from before its clock reading |
| GuardLaws.ForeignRoleIsUnauthorised | services/gateway/app/auth/session_guard.py:124-139 | A token with a role the user does not have gets a 401 |
| Staleness.GatewayAcceptanceImpliesAuthAcceptance | services/gateway/app/auth/session_guard.py:80-85 | For positive timestamps what the gateway accepts as fresh Auth accepts too |
| Staleness.TestsDisagreeExactlyWhen | services/auth_service/app/services/auth_service.py:273-298 | The two staleness tests disagree exactly on tokens without a number and on columns at or before the epoch |
| SessionGuard.Guard.EnforceSession | services/gateway/app/auth/session_guard.py:159-236 | The decision for every request (out of scope, unauthenticated, locked out, stale, unavailable, forwarded) and the cache it leaves |
| SessionGuard.Evaluate | services/gateway/app/auth/session_guard.py:88-156 | Lets a payload through iff the state is active, unblocked, of the same role and not newer; a lockout is a 403 and wins over the rest |
| SessionGuard.BearerRoundTrip | services/gateway/app/auth/session_guard.py:70-77 | A token without outer spaces is recovered from the header whatever the case of the scheme and the spacing |
| SessionGuard.OnlyBearersAreExtracted | services/gateway/app/auth/session_guard.py:70-77 | What is extracted from a header stands behind the scheme and a gap, stripped and not empty |
| SessionGuard.GatewayCache.GetCached | services/gateway/app/auth/user_state_cache.py:29-39 | A hit iff the entry has not expired; an expired entry is removed |
| SessionGuard.GatewayCache.SetCached | services/gateway/app/auth/user_state_cache.py:42-46 | Stores with the given time to live; none is stored when it is not positive |
| LookupTiming.GuardActsOnRecentRow | services/gateway/app/auth/session_guard.py:209-235 | With lookups, fills, answers and changes interleaved, the state the guard acts on was the row at an instant no older than the last moment of both times to live plus the flight times; a time to live of zero or less adds nothing |
| LookupTiming.GreatestAgeIsReached | services/gateway/app/auth/session_guard.py:209-235 | That bound is exact: for every timing some run acts on a row of just that age |
| LookupTiming.InvalidationTakesHoldExactlyWhen | services/auth_service/app/services/user_state_cache.py:40-43 | After an invalidation Auth never serves a superseded row again, until the next change, iff no lookup that read the older row is still to fill the cache |
| LookupTiming.NextKeepsSound | services/auth_service/app/services/user_state_service.py:24-42 | Each step of the interleaved lookup protocol keeps the age bound of every reading, cache entry and answer |
| ResetRace.NextKeepsInv | services/auth_service/app/repositories/password_reset_repository.py:118-157 | Each statement of overlapping resets, and any other request that respects row locks, keeps consumed tokens unused-until-commit, locked rows exclusive and committed tokens spent |
| ResetRace.AtMostOneCommit | services/auth_service/app/services/password_reset_service.py:116-162 | Of any number of overlapping resets of one token, at most one is ever committed |
| ResetRace.OneCommitPerToken | services/auth_service/app/services/password_reset_service.py:116-162 | Two commits of one run are for different tokens |
| ResetRace.EffectsBecomeVisibleTogether | services/auth_service/app/services/password_reset_service.py:133-159 | Only the commit changes what others see, and it turns none of the three effects into all three |
| ResetRace.CommitIsAtomicExactlyWhen | services/auth_service/app/services/password_reset_service.py:133-159 | A commit equals the one-step redemption iff no session of the user was opened after the sessions were collected |
| ResetRace.SessionOpenedDuringReset | services/auth_service/app/repositories/refresh_token_repository.py:180-210 | A login that commits in between survives the reset |
| MixedRuns.MixedRunsAreSound | services/auth_service/app/services/password_reset_service.py:116-162 | In every run that interleaves the statements of resets with any other requests, both the reset invariant and the whole table invariant hold |
| MixedRuns.RequestsInterfere | services/auth_service/app/services/password_reset_service.py:133-159 | Every request that leaves locked rows alone is a step the overlapping resets allow for |
| MixedRuns.MixedRunsAreResetRuns | services/auth_service/app/services/password_reset_service.py:116-162 | Such a run is a run of the overlapping resets, so at most one reset per token commits in it |
| MixedRuns.PublishingKeepsSound | services/auth_service/app/services/password_reset_service.py:150-159 | The commit of a reset keeps the table invariant however long ago its statements ran |
| Services.AuthService.Register | services/auth_service/app/services/auth_service.py:61-90 | Ends with the specified reply, or at the stage its last successful commit reached: no user, or a user without verification token |
| Services.AuthService.Login | services/auth_service/app/services/auth_service.py:92-138 | Credentials, then role, then block, then disable; a success inserts one live token |
| Services.AuthService.Refresh | services/auth_service/app/services/auth_service.py:140-219 | Reuse detection before expiry, user, lockout and role; a success revokes the old token and inserts its successor in one commit |
| Services.AuthService.Logout | services/auth_service/app/services/auth_service.py:221-233 | Revokes exactly the presented token; a revoked one is accepted unchanged |
| Services.AuthService.ResolveUser | services/auth_service/app/services/auth_service.py:235-253 | Accepts exactly the access tokens of an existing user that are not older than the last password change; the account flags play no part |
| Services.PasswordManagementService.ChangePassword | services/auth_service/app/services/password_management_service.py:42-78 | Password, timestamp and revocations in one commit, then the cache entry is dropped; nothing on a failed commit |
| Services.PasswordManagementService.RevokeSessions | services/auth_service/app/services/password_management_service.py:80-95 | Spares the current session only when configured and the presented token is a live one of this user |
| Services.PasswordResetService.RequestPasswordReset | services/auth_service/app/services/password_reset_service.py:88-114 | An unknown e-mail succeeds without effect; otherwise older tokens are retired, then a fresh one is stored |
| Services.PasswordResetService.ResetPassword | services/auth_service/app/services/password_reset_service.py:116-162 | Validates, then redeems in one commit and drops the cache entry |
| Services.PasswordResetService.Redeem | services/auth_service/app/services/password_reset_service.py:133-162 | The transaction from any tables it meets: a lost token or a lost user rolls everything back |
| Services.EmailVerificationService.SendVerificationEmail | services/auth_service/app/services/email_verification_service.py:67-90 | Stores one unused token |
| Services.EmailVerificationService.VerifyEmail | services/auth_service/app/services/email_verification_service.py:92-125 | Verifies the user and uses the token, in two commits for an unverified user and one otherwise |
| Services.EmailVerificationService.ResendVerification | services/auth_service/app/services/email_verification_service.py:127-143 | Retires the older tokens, then stores a fresh one |
| Services.AccountService.DisableAccount | services/auth_service/app/services/account_service.py:63-106 | Flags, timestamp and revocations in one commit, then the cache entry is dropped |
| Services.AccountService.EnableAccount | services/auth_service/app/services/account_service.py:108-155 | Reopens a disabled account; a blocked one is refused |
| Services.AccountService.DeleteAccount | services/auth_service/app/services/account_service.py:157-194 | Three commits whose completed effect is the deletion with everything the user owned |
| Services.AdminUserManagementService.BlockUser | services/auth_service/app/services/admin_user_management_service.py:99-128 | Block, then revocation, in two commits; the stage in between is exposed on failure |
| Services.AdminUserManagementService.UnblockUser | services/auth_service/app/services/admin_user_management_service.py:130-157 | Clears the three block columns |
| Services.AdminUserManagementService.DeactivateUser | services/auth_service/app/services/admin_user_management_service.py:159-187 | Deactivation, then revocation, in two commits |
| Services.AdminUserManagementService.ActivateUser | services/auth_service/app/services/admin_user_management_service.py:189-215 | Reactivates |
| Services.AdminUserManagementService.DeleteUser | services/auth_service/app/services/admin_user_management_service.py:217-240 | Refuses admins; one commit deletes the user and everything it owned |
| Services.UserStateService.GetUserState | services/auth_service/app/services/user_state_service.py:24-42 | A live entry answers; otherwise the flags, the role and the password timestamp of the row, which are remembered |
| Services.UserStateCache.Set | services/auth_service/app/services/user_state_cache.py:17-37 | Keeps the live entries as they are, but for one of them when a new one finds 10,000; adds the given one |
| Services.UserStateCache.Get | services/auth_service/app/services/user_state_cache.py:17-32 | A hit for 60 s after the entry was set |
| Services.DeletingForgetsTokens | services/auth_service/app/services/account_service.py:157-194 | What the earlier commits of a deletion did to tokens is gone with the user |
| Identity.ValidateOneTime | services/auth_service/app/services/one_time_token_validation.py:23-47 | Accepts iff the record exists, is unused and expires strictly later; use is reported before expiry |
| Identity.LastAssignmentStays | services/auth_service/app/repositories/user_repository.py:119-170 | Of the columns set in order the last assignment stays, and a column nobody names is kept |
| Identity.ReplacingKeepsTheIndex | services/auth_service/app/repositories/user_repository.py:119-170 | A row with a free address keeps users and e-mail index in agreement, frees the old address and touches no other row |
| Requests.Inaccessible | services/auth_service/app/services/auth_service.py:255-271 | Accessible iff active and unblocked |
| Persistence.UserRepository.CreateUser | services/auth_service/app/repositories/user_repository.py:48-89 | A duplicate e-mail changes nothing; otherwise one commit inserts the row |
| Persistence.UserRepository.UpdateUser | services/auth_service/app/repositories/user_repository.py:119-170 | Refuses names that are no editable column, a missing user and an e-mail of another user; otherwise sets the columns in order, the e-mail index following, published on request and pending otherwise |
| Persistence.UserRepository.Delete | services/auth_service/app/repositories/user_repository.py:172-186 | One commit removes the row and cascades to its tokens |
| Persistence.RefreshTokenRepository.Create | services/auth_service/app/repositories/refresh_token_repository.py:25-54 | One commit inserts a live row |
| Persistence.RefreshTokenRepository.RotateToken | services/auth_service/app/repositories/refresh_token_repository.py:76-123 | One commit revokes the old row and inserts the successor, whatever the old flag says |
| Persistence.RefreshTokenRepository.RevokeToken | services/auth_service/app/repositories/refresh_token_repository.py:125-141 | One commit revokes one row |
| Persistence.RefreshTokenRepository.RevokeAllTokens | services/auth_service/app/repositories/refresh_token_repository.py:180-210 | Revokes the live rows of a user, committed or pending as asked |
| Persistence.RefreshTokenRepository.RevokeAllTokensExcept | services/auth_service/app/repositories/refresh_token_repository.py:212-252 | Revokes the live rows of a user but one, committed or pending as asked |
| Persistence.RefreshTokenRepository.DeleteExpiredTokens | services/auth_service/app/repositories/refresh_token_repository.py:254-270 | One commit removes the expired rows |
| Persistence.PasswordResetRepository.CreateToken | services/auth_service/app/repositories/password_reset_repository.py:25-58 | One commit inserts an unused row |
| Persistence.PasswordResetRepository.InvalidateUnusedTokens | services/auth_service/app/repositories/password_reset_repository.py:84-116 | One commit uses up the unused rows of a user |
| Persistence.PasswordResetRepository.ConsumeToken | services/auth_service/app/repositories/password_reset_repository.py:118-157 | True iff this call turned an unused row into a used one, committed or pending as asked |
| Persistence.EmailVerificationRepository.CreateToken | services/auth_service/app/repositories/email_verification_repository.py:25-58 | One commit inserts an unused row |
| Persistence.EmailVerificationRepository.InvalidateUnusedTokens | services/auth_service/app/repositories/email_verification_repository.py:88-122 | One commit uses up the unused rows of a user |
| Persistence.EmailVerificationRepository.MarkAsUsed | services/auth_service/app/repositories/email_verification_repository.py:124-146 | One commit uses up the row |
| Apportionment.SharesAreOptimal | services/ai_service/app/utils/section_tokens.py:48-65 | Among all integer allocations of the same total the shares have the least summed deviation from the exact proportional ones |
| Apportionment.SharesSumToTotal | services/ai_service/app/utils/section_tokens.py:48-65 | The shares add up to the total |
| Apportionment.SharesStayWithinQuota | services/ai_service/app/utils/section_tokens.py:48-65 | Each share is the floor or the ceiling of the exact one |
| Apportionment.SharesAreMonotone | services/ai_service/app/utils/section_tokens.py:48-65 | A strictly heavier section never receives fewer tokens |
| Apportionment.RemainderIsSmall | services/ai_service/app/utils/section_tokens.py:53-64 | What the floors leave over is below the number of sections, so one pass hands it out |
| Apportionment.RankingIsRanked | services/ai_service/app/utils/section_tokens.py:55-59 | The order of the hand-out is sorted by descending remainder, then weight, then stably |
| Apportionment.HandOutOrder | services/ai_service/app/utils/section_tokens.py:55-64 | Of two sections the one with the larger remainder, then weight, then position never lacks the token the other got |
| SectionTokens.Apportion | services/ai_service/app/utils/section_tokens.py:48-64 | The loop computes the largest-remainder shares |
| SectionTokens.CollectWeights | services/ai_service/app/utils/section_tokens.py:24-38 | Each section weighs the size of the value that was found last; null values weigh nothing |
| SectionTokens.CountedIsTheLast | services/ai_service/app/utils/section_tokens.py:24-38 | What is counted is the child of the last nest that has one that is not null, else the top-level value |
| SectionTokens.EstimateSectionTokens | services/ai_service/app/utils/section_tokens.py:14-65 | The counted sections are exactly the eligible ones, the result is their shares without zeros and sums to the total; otherwise it is empty |
| PayloadMerge.MergeLlmPayload | services/ai_service/app/utils/section_tokens.py:75-116 | The loops compute the specified merge; without a request, or without a prior, the generated payload |
| PayloadMerge.MergesCompose | services/ai_service/app/utils/section_tokens.py:75-116 | Merging two requests in turn equals merging them together iff the `feature` entry composes, which it does whenever the prior has one; all other entries always do |
| PayloadMerge.FeatureComposesExactlyWhen | services/ai_service/app/utils/section_tokens.py:108-111 | The exact condition for an absent `feature`: none is lent, or the first request selects a child of it, or the second selects children that cover the loan, or it selects none of an earlier alias and none of the lender that was not lent |
| PayloadMerge.LoanIsKeptExactlyWhen | services/ai_service/app/utils/section_tokens.py:108-111 | What both requests lend is what the first one lends iff the second selects no child of an earlier alias (or exactly the loan there) and of the lender only children lent already |
| PayloadMerge.LoanGoesStale | services/ai_service/app/utils/section_tokens.py:108-111 | Two requests and a payload for which the borrowed `feature` of the first step is out of date after the second |
| PayloadMerge.MergeIsIdempotent | services/ai_service/app/utils/section_tokens.py:75-116 | Merging the same request again changes nothing, for every prior |
| PayloadMerge.ChildrenAfterMerge | services/ai_service/app/utils/section_tokens.py:96-109 | A child that is not requested keeps its prior value; a requested one takes the generated value |
| PayloadMerge.UnrequestedEntriesSurvive | services/ai_service/app/utils/section_tokens.py:92-94 | A top-level entry that is not requested is the prior one |
| PayloadMerge.GeneratedEntriesWin | services/ai_service/app/utils/section_tokens.py:88-95 | A requested top-level entry, named in any case and with spaces around, takes the generated value; the generated `metadata` always wins |
| PayloadMerge.FeatureIsBorrowed | services/ai_service/app/utils/section_tokens.py:108-111 | An absent `feature` becomes a copy of the first generated alias that has content after the merge |
| Payloads.AllowedAreRequested | services/ai_service/app/utils/section_tokens.py:88 | A name is allowed iff some requested section is that name but for case and outer spaces |
| PayloadMerge.MergeNest | services/ai_service/app/utils/section_tokens.py:100-107 | The two inner loops overlay exactly the selected children |
| PayloadMerge.FilterPayload | services/ai_service/app/utils/section_tokens.py:119-149 | The loops compute the specified cut; an absent payload gives an empty one, no request the whole |
| PayloadMerge.FilterIsIdempotent | services/ai_service/app/utils/section_tokens.py:119-149 | Cutting twice is cutting once |
| PayloadMerge.FilterKeepsExactly | services/ai_service/app/utils/section_tokens.py:119-149 | A cut payload holds the requested top-level entries, the named children of the nests, `metadata` and nothing else |
| PayloadMerge.FilterThenMerge | services/ai_service/app/utils/section_tokens.py:75-149 | Cutting the generated payload before merging changes nothing iff the prior has a `feature`, or a child of it is selected, or nothing is lent, or the lender has selected children (or the next nest with some comes out like the prior lender) |
| PayloadMerge.CutPayloadDoesNotLend | services/ai_service/app/utils/section_tokens.py:75-149 | A prior, a payload and a request for which cutting first loses the borrowed `feature` |
| PayloadMerge.CutMergesCompose | services/ai_service/app/agents/shared/workflow/nodes.py:365-374 | The workflow, which cuts and then merges, composes over two requests for every prior with a `feature` |
| MemoryCache.CacheIsExact | services/ai_service/app/cache/memory_cache.py:39-73 | On every run `get` answers the last write that was not deleted or cleared for as many seconds as that write asked for, one at least, the default if none was given and 30 days at most, unless the entry was displaced since |
| MemoryCache.LastWriteExactlyWhen | services/ai_service/app/cache/memory_cache.py:51-73 | The last write of a key is the one with no later write, deletion or clearing |
| MemoryCache.SizeIsBounded | services/ai_service/app/cache/memory_cache.py:51-59 | The store never holds more than `max_entries` |
| MemoryCache.SpareCapacity | services/ai_service/app/cache/memory_cache.py:51-59 | A run that writes no more keys than fit displaces nothing and counts no eviction |
| MemoryCache.LossesAreCounted | services/ai_service/app/cache/memory_cache.py:54-59 | The eviction counter is at least the number of keys that are displaced now |
| MemoryCache.MemoryCacheProvider.Get | services/ai_service/app/cache/memory_cache.py:39-49 | Answers a live value; a lapsed entry is removed and counted |
| MemoryCache.MemoryCacheProvider.Set | services/ai_service/app/cache/memory_cache.py:51-59 | Stores with at least one second to live; displaces one entry and counts it exactly when the store is full and the key is new |
| MemoryCache.MemoryCacheProvider.Delete | services/ai_service/app/cache/memory_cache.py:61-65 | True iff the store held the key |
| MemoryCache.MemoryCacheProvider.Exists | services/ai_service/app/cache/memory_cache.py:67-68 | True iff `get` answers a value |
| MemoryCache.MemoryCacheProvider.Clear | services/ai_service/app/cache/memory_cache.py:70-73 | Empties the store and reports how many entries it held |
| MemoryCache.CacheManager.Get | services/ai_service/app/cache/cache_manager.py:80-92 | When switched on every lookup is one hit or one miss, a hit iff a value is answered; nothing happens when switched off |
| MemoryCache.CacheManager.Set | services/ai_service/app/cache/cache_manager.py:94-97 | Writes through when switched on |
| MemoryCache.CacheManager.Delete | services/ai_service/app/cache/cache_manager.py:99-102 | Deletes when switched on |
| MemoryCache.CacheManager.Exists | services/ai_service/app/cache/cache_manager.py:104-107 | Looks up when switched on and counts neither hit nor miss |
| MemoryCache.CacheManager.Clear | services/ai_service/app/cache/cache_manager.py:109-110 | Clears whether switched on or not |
| CacheKeys.KeysIdentifyRequests | services/ai_service/app/cache/cache_keys.py:47-146 | Two requests share a key iff they are for the same feature and their normalised segments agree, unless the hash collides on their two texts |
| CacheKeys.ProblemKey | services/ai_service/app/cache/cache_keys.py:47-65 | The key of a LeetCode or HackerRank request hashes model, prompt version and the first of slug, its name in the metadata, title and message that is there |
| CacheKeys.DsaKey | services/ai_service/app/cache/cache_keys.py:68-73 | The key of a DSA request, under both feature names, hashes pattern, difficulty and model with their fall-backs |
| CacheKeys.CourseKey | services/ai_service/app/cache/cache_keys.py:76-87 | The key of a course request hashes topic, level, language and model with their fall-backs |
| CacheKeys.OnlyTheseFeaturesHaveKeys | services/ai_service/app/cache/cache_keys.py:90-146 | A request has a key iff it names one of the five cacheable features; `course` is none of them |
| CacheKeys.SegmentText | services/ai_service/app/cache/cache_keys.py:32-39 | For every text with a word in it: its words in lower case with one dash for what stands between two, if that is at most 64 characters, else the hash of the text as given |
| CacheKeys.BlankIsEmpty | services/ai_service/app/cache/cache_keys.py:34-36 | A text without a word is the segment `empty` |
| CacheKeys.NormalSegmentsAreFixed | services/ai_service/app/cache/cache_keys.py:32-39 | Normal segments (safe, lower-case, 1 to 64 characters, no outer dash) are exactly the fixed points of normalisation |
| CacheKeys.NormalizedIsNormal | services/ai_service/app/cache/cache_keys.py:32-39 | Every normalised segment is normal and free of the separator |
| CacheKeys.NormalizeIsIdempotent | services/ai_service/app/cache/cache_keys.py:32-39 | Normalising twice is normalising once |
| CacheKeys.CaseIsIgnoredExactlyWhenShort | services/ai_service/app/cache/cache_keys.py:32-39 | A segment and its lower-case form are one segment iff it is short or has no capitals |
| CacheKeys.LongCapitalsAreKept | services/ai_service/app/cache/cache_keys.py:32-39 | 65 capitals and their lower-case form are two segments, 64 are one |
| CacheKeys.SplitJoin | services/ai_service/app/cache/cache_keys.py:47-87 | Joined segments without the separator are recovered by splitting |
| Streaks.CurrentStreakIsTheRun | services/ai_service/app/repositories/course_repository.py:286-297 | For non-decreasing dates the current streak is the length of the run of consecutive days ending on the last date, which cannot be extended |
| Streaks.LongestStreakIsAnUpperBound | services/ai_service/app/repositories/dsa_pattern_repository.py:350-361 | No run of consecutive days is longer than the longest streak |
| Streaks.LongestStreakIsReached | services/ai_service/app/repositories/dsa_pattern_repository.py:350-361 | Some run of consecutive days is as long as the longest streak |
| Streaks.LongestIsTheLargest | services/ai_service/app/repositories/course_repository.py:286-297 | On every history, dates that go back included, both longest streaks are the largest value the current one ever had |
| Streaks.AttemptsAgainstDays | services/ai_service/app/repositories/leetcode_progress_repository.py:74-82 | The attempt counter is at least the day counter, and equal iff no day of the current run repeats |
| Streaks.LongestAttemptsAgainstDays | services/ai_service/app/repositories/hackerrank_progress_repository.py:97-105 | The longest attempt streak is at least the longest day streak |
| Streaks.AttemptsOfTheRun | services/ai_service/app/repositories/hackerrank_progress_repository.py:97-105 | The attempt counter is the number of activities in the current run of days |
| Streaks.BackwardClockInflates | services/ai_service/app/repositories/course_repository.py:286-297 | Dates that go back give a streak over days without activity |
| Streaks.LearningProgress.BumpStreak | services/ai_service/app/repositories/course_repository.py:286-297 | The first activity and one after a gap start at 1, one on the same day changes nothing, any other adds 1; the longest follows |
| Streaks.AttemptProgress.BumpStreak | services/ai_service/app/repositories/leetcode_progress_repository.py:74-82 | The first attempt and one after a gap start at 1, any other adds 1; the longest follows |
| ExampleParser.ParsePreExample | services/ai_service/app/utils/leetcode_markdown.py:64-119 | The line machine with its flushes returns, per field, the lines of the last section of that field that has any, joined by line feeds |
| ExampleParser.ParseOfRendered | services/ai_service/app/utils/leetcode_markdown.py:64-119 | Parsing a rendering of an example returns it, whatever text without headers comes first, whether a header stands alone or before its first line, in any case and with any spaces before the colon; absent fields stay absent |
| ExampleParser.ParseIsStable | services/ai_service/app/utils/leetcode_markdown.py:64-119 | For every text: rendering what was parsed and parsing again gives the same example |
| ExampleParser.HeadersAreRead | services/ai_service/app/utils/leetcode_markdown.py:23-25 | A name in any case, any spaces, a colon and any rest, be it empty, is a header of that field with the stripped rest |
| ExampleParser.OnlyHeadersAreRead | services/ai_service/app/utils/leetcode_markdown.py:23-25 | Nothing else is a header |
| ExampleParser.LaterSectionWins | services/ai_service/app/utils/leetcode_markdown.py:72-119 | Appending a section to any text sets that field and no other; an empty section changes nothing |
| ExampleParser.PaddingIsIgnored | services/ai_service/app/utils/leetcode_markdown.py:89-91 | Spaces around a line and lines of spaces make no difference |
| ExampleParser.LinesBreak | services/ai_service/app/utils/leetcode_markdown.py:88 | Every line break ends a line, and a carriage return with its line feed is one |
| ExampleParser.Flush | services/ai_service/app/utils/leetcode_markdown.py:72-86 | Stores the collected lines under the open field, if both exist |
| SheetCells.ColName | services/admin_service/app/services/report_export.py:101-107 | The loop computes the bijective base-26 name |
| SheetCells.NumberOfColumn | services/admin_service/app/services/report_export.py:101-107 | The name of an index reads back as the index, and only zero has the empty name |
| SheetCells.ColumnOfNumber | services/admin_service/app/services/report_export.py:101-107 | Every word over A-Z is the name of its number |
| SheetCells.ColumnsKeepOrder | services/admin_service/app/services/report_export.py:101-107 | Index order is the order of the names by length, then alphabet |
| SheetCells.ReferencesAreDistinct | services/admin_service/app/services/report_export.py:118-128 | Two cell references are equal iff column and row are |
| SheetCells.Sheet | services/admin_service/app/services/report_export.py:110-139 | Row 1 holds the headers and row i + 2 the values of row i, a missing one empty, each at its own reference |
| PdfReport.ToPdf | services/admin_service/app/services/report_export.py:142-196 | For every report the file is readable: `startxref` gives the table, the trailer the root, every reference leads through the table to the object it names, and following entry 4 and `/Length` recovers the page stream |
| PdfFile.OffsetsAreExact | services/admin_service/app/services/report_export.py:181-191 | For every list of objects below the ten-digit limit a reader of the table finds each object where it starts |
| PdfFile.StartIsExact | services/admin_service/app/services/report_export.py:187-195 | The number after `startxref` is the offset of the table |
| PdfFile.FileFrame | services/admin_service/app/services/report_export.py:182-195 | The file begins with its version, the table with the free entry, and the trailer with size and root follows the last entry |
| PdfFile.EntriesAreTwentyBytes | services/admin_service/app/services/report_export.py:189-191 | Every entry is 20 bytes and the k-th one is for object k |
| PdfFile.WriteFile | services/admin_service/app/services/report_export.py:181-196 | The writer with its recorded positions computes the specified layout |
| PdfReport.StreamIsRead | services/admin_service/app/services/report_export.py:174-178 | The stream is recovered by its length whatever bytes it holds |
| PdfReport.WritePage | services/admin_service/app/services/report_export.py:157-165 | The loop prints at most 60 lines, from y = 750 in steps of 12 |
| PdfReport.LineIsPlaced | services/admin_service/app/services/report_export.py:157-165 | Line i of the page stands at y = 750 - 12 i with the first 120 characters of the escaped text, and there are at most 60 |
| PdfReport.Encoded | services/admin_service/app/services/report_export.py:165 | Characters up to U+00FF are kept, every other becomes a question mark |
| PdfReport.CollectLines | services/admin_service/app/services/report_export.py:149-155 | Heading, header, rule, at most 200 rows and a note about the rest |
| PdfReport.LinesOfReport | services/admin_service/app/services/report_export.py:149-155 | Which line is what: heading, blank, header, a rule of 20 to 100 dashes, at most 200 rows, and the number of those left out |
| PdfReport.RowIsPrinted | services/admin_service/app/services/report_export.py:153-154 | A row prints its cells in the order of the columns, a missing one empty |
| PdfReport.HeadingIsTitled | services/admin_service/app/services/report_export.py:149 | The heading has spaces for underscores, a capital where a word begins and small letters elsewhere |
| PdfReport.OnlyTheFirstRowsArePrinted | services/admin_service/app/services/report_export.py:152-163 | A report of more than 56 rows prints the page of its first 56: the note about omitted rows never appears |
| PdfReport.LiteralIsClosedExactlyWhen | services/admin_service/app/services/report_export.py:160-161 | The literal string of a line ends where the writer closes it, and holds a prefix of the line, iff the cut at 120 characters halves no escape |
| PdfReport.ParenthesisAtTheCut | services/admin_service/app/services/report_export.py:160-161 | 119 plain characters and a parenthesis make a line whose literal string is never closed |
| PdfReport.ReplacingInOrder | services/admin_service/app/services/report_export.py:160 | The three replacements escape every special character exactly once |

## Left out

- Cryptography: a stored hash stands for its password, a digest for a raw token, a decoded token for its claims. Raw tokens are fresh, password checks compare, and the hash of cache keys is any function into 64 hexadecimal digits; where keys must differ, only a collision of the two texts at hand is excluded.
- Clock: one reading per request, a parameter. Time zones are gone, timestamps are integers in microseconds (seconds in the response cache, days in the streaks).
- Book-keeping columns: the `login` column of a refresh row and the `readAt` of a reading belong to the model alone; no operation looks at them.
- Failures other than refused commits: a statement that fails before its commit, a lost connection, an e-mail that cannot be sent (it has no effect beyond the stored token).
- E-mail addresses: compared as stored; names, profile columns and audit records are not modelled.
- Several Auth processes: the user-state cache is local to one process.
- Services.UserStateCache.Set: the store drops its least recently used entry; the model lets it drop any one.
- Persistence.UserRepository.UpdateUser: names and the deletion mark are not columns of the model.
- Overlap of requests other than resets, lookups, rotations and logins: the request machine runs one request at a time. Row locks in `ResetRace` follow PostgreSQL's read-committed updates.
- SessionMachine.Serve: seeding a super admin is reduced to its effect on the users table.
- Apportionment.SharesAreOptimal: the code divides in floating point; the model uses the exact quotient and remainder of the same products.
- Apportionment.RankingIsRanked: rounded quotients may order exact ties of remainders differently from the exact ones.
- SectionTokens.Apportion: the same exact quotients stand for the rounded ones.
- SectionTokens.EstimateSectionTokens: the serialised length of a value is a parameter, at least one; child keys are strings.
- PayloadMerge.MergeLlmPayload: the merged `feature` and the alias it was borrowed from are one object in memory; the model has equal values. The order in which a dictionary is walked is a parameter.
- MemoryCache.CacheIsExact: the provider reads two clocks, one for its own expiry and one inside the store; the model has one that does not go back. Memory estimates and lookup times are left out.
- CacheKeys.CaseIsIgnoredExactlyWhenShort: lower case is that of ASCII letters.
- ExampleParser.ParsePreExample: headers match without regard to the case of ASCII letters only.
- Other case conversions, of section names, bearer schemes and titles, are ASCII as well.
- CacheKeys.KeysIdentifyRequests: context and metadata values are text; a number or a nested value would be printed first.
- Progress rows: activity counters, mastery and study hours beside the streaks; a clock that goes back (see `Streaks.BackwardClockInflates`).
- The HTML walk around the example parser, its Markdown output and its URL patterns belong to libraries.
- SheetCells.Sheet: the XML text around a cell, its escaping and the archive are left out.
- PdfReport.ToPdf: the heading is put in title case for ASCII letters only. The graphics operators around a literal string are not interpreted.
- HTTP routing, proxying, middleware, settings, logging, analytics, prompt management, notifications and migrations.
