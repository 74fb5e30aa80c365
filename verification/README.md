# Verified model of the Aera Cloud control plane

This project models the PostgreSQL-backed state machines of the service as explicit steps over a
database value, and proves what every run of them keeps. Beside them it models the pure algorithms
whose results those machines store and check again.

Each repository method is one atomic step: a function from the database to either the committed
database and the reply, or the error the transaction was abandoned with. The `*Repository` classes hold
the same steps in the program's own form, statements and loops on a transaction that is committed at
the end: each method commits exactly what its step function says or leaves the database alone, and keeps
the object's `Valid()`, the invariant of its database, and the relation to the earlier database. Main
results hold for every run, a sequence of these events:

- official pipeline: reserving a definition, creating, updating and submitting a draft, withdrawing and
  reviewing a submission, changing a release, and any change of platform status, policy, accounts and archiving;
- organization pipeline: submitting, withdrawing, rejecting and approving, and any change of memberships,
  accounts, policy and archiving;
- accounts: registration, login receipt, password reset and change, binding and removing a login, deletion
  request, recovery and finalisation; authorizing a device, first or again, revoking one's device, a device
  revoking itself; signing in, refreshing, logging out, revoking a family after a failed token issue and the
  sweep of expired sessions; the operator's commands and the control API; and around them challenges
  issued, confirmed and swept, entitlements recorded, lookup and protector keys rotated and organizations
  changing hands.

| area | modules |
|---|---|
| official publication and releases | `PlatformState`, `PlatformSteps`, `PlatformInvariants`, `PlatformProofs`, `PlatformTheorems`, `PlatformIntegrity`, `PlatformReleaseSpec`, `PlatformSubmissionSpec`, `PlatformReviewSpec`, `PlatformOrigins`, `PlatformRetries`, `PlatformRepository` |
| organization publication | `OrganizationSteps`, `OrganizationProofs`, `OrganizationSpec`, `OrganizationIntegrity`, `OrganizationRepository` |
| version numbering of both | `VersionTree` |
| accounts, devices, sessions, receipts and administrative operations | `AccountState`, `AccountSteps`, `AccessSteps`, `AdminSteps`, `AccountShapes`, `AccountRuns`, `AccountInvariants`, `AccountProofs`, `AccountTheorems`, `AccessTheorems`, `SessionTheorems`, `RevocationExample`, `AccountEffects`, `ReceiptTheorems`, `OperationTheorems`, `AccountSpec`, `LifecycleSpec`, `DisabledTheorems`, `AccessSpec`, `AccountRepository` |
| canonical content and version order | `CanonicalList`, `Manifest`, `ManifestProofs`, `ManifestAcceptance`, `ManifestLoops`, `SubmissionPackage`, `SemVer`, `SemVerGrammar` |
| key ring, framing, cursors and paging | `Bytes`, `Protector`, `Cursor`, `Paging` |
| rate limits | `RateLimit` |

The `*Spec` modules say of each step, on the rows alone and without naming the step's own functions, exactly when a
call that is not a retry commits and what it then leaves; the run theorems build on them.

`dafny verify dfyconfig.toml` checks everything.

## How the code is read

- Identifiers are opaque numbers, the nil identifier is 0, times are integers (nanoseconds; the rate
  limits use milliseconds). Clock readings, fresh identifiers and drawn secrets are inputs of a step. An identifier
  of a challenge, device, session, session family or entitlement that was given out before is refused.
- SHA-256 and HMAC are functions. A result that needs them not to collide either assumes that for the
  two messages at hand (`Separates`, `NoCollision`) or names the collision in its conclusion
  (`SameOrColliding`); nothing assumes a digest to be injective on all messages.
  Registering and binding are decided for rings whose digests have the 32 bytes of SHA-256 (`AccountSpec.SizedLookup`):
  the lock taken for a login reads the first eight.
- Unicode normalization, trimming, lower-casing, `path.Clean`, icon inspection, the display-name check, the
  publication scan, the digests and the length of the encoded manifest are parameters (`Manifest.Library`). The
  only law used of normalization is that doing it twice is doing it once; the package results also use that
  trimming twice is trimming once and that there is nothing to trim from the empty text. Both pipelines run on
  `SubmissionPackage.Rules`; `RulesAreLawful` shows that those laws make the rules of both pipelines `Lawful`, the
  hypothesis of the official pipeline's content results.
- An identity row keeps the login its ciphertext holds. That the sealed value is the receipt's login is
  what the account service passes in (`Seal` on the claims' kind and normalized login).
- A counter of the rate limiter counts as expired from the instant its window has fully passed.

Where a promise does not hold for all inputs, the code is kept as it is and the exact condition is proved:

- Canonicalizing twice gives the same value exactly when every submitted path, once *normalized*, passes the
  guard on raw paths, because the drive-letter test runs before normalization; otherwise the second round is
  refused (`ManifestProofs.CanonicalAgainIff`; a whole accepted version with the Kelvin sign in
  `ManifestProofs.KelvinVersionAcceptedOnce`). Packages outside that condition are refused by submitting,
  creating and updating although they canonicalize (`OrganizationIntegrity.SubmitAcceptsIff`,
  `PlatformIntegrity.UpdateAcceptsIff`), so nothing stored ever fails a later check.
- The first revocation fixes a session's time for good, and its reason exactly until an event replays a refresh token
  of its family (`AccessSteps.Replays`), which becomes the reason. A revoked device stays as it is exactly until it
  is authorized again. `AccountTheorems.FirstRevocationStands` proves both conditions over every run, and
  `RevocationExample.RevocationsDoNotAllStand` is a run in which both fail.
- Version comparison is the order of section 11 of Semantic Versioning 2.0.0 against all other versions
  exactly when no numeric pre-release identifier reaches 2^64 - 1 (`SemVer.AgreesIffExact`; two versions it
  confuses in `SemVer.SaturationExample`).
- The length-prefixed framing is injective exactly for fields shorter than 2^32 bytes
  (`Protector.FramingInjectiveIff`).
- A cursor gives its position back exactly when the time fits 64 bits of nanoseconds
  (`Cursor.CursorRoundTrip`; one that does not in `Cursor.LateCursorComesBackEarly`).

## Model

| member | source | states |
|---|---|---|
| PlatformTheorems.VersionLineage | internal/agentcontrol/platform_repository.go:484-646 | in every run a definition's versions are numbered 1..n without gap or repeat, its head is version n, version 1 comes from an approved `initial` submission and version k+1 from an approved submission based on exactly version k |
| PlatformTheorems.ApprovedPublishesOnce | internal/agentcontrol/platform_repository.go:2264-2357 | a submission is approved exactly when it published a version, and it published only one |
| PlatformTheorems.SubmissionLife | internal/agentcontrol/platform_repository.go:1986-2105 | a submission keeps its content and leaves pending (revision 1) at most once, into a terminal status (revision 2) that never changes; a review exists exactly for approved and rejected ones, by another person than the submitter column names (who that is: `PlatformOrigins.SubmissionGoesBack`); at most one pending submission per draft; every load passes, the re-canonicalization, digest and review checks included |
| PlatformOrigins.SubmissionGoesBack | internal/agentcontrol/platform_repository.go:386-398 | every stored submission goes back to a committed submit event of that identifier, whose actor, time, draft and draft revision its row holds |
| PlatformOrigins.SubmittedOnce | internal/agentcontrol/platform_repository.go:331-419 | and to one such event only |
| PlatformOrigins.NobodyReviewsTheirOwn | internal/agentcontrol/platform_repository.go:516-522 | every committed review, of either decision, is by another person than the one whose event submitted |
| PlatformOrigins.OnlySubmittersWithdraw | internal/agentcontrol/platform_repository.go:421-482 | every committed withdrawal is by the person whose event submitted |
| PlatformOrigins.ReviewGoesBack | internal/agentcontrol/platform_repository.go:553-571 | every stored review goes back to the committed event that made it, whose actor, decision and texts it holds |
| PlatformSubmissionSpec.ReserveDoes | internal/agentcontrol/platform_repository.go:105-164 | a definition is reserved exactly on an active platform under an unused identifier, and starts without a head |
| PlatformSubmissionSpec.CreateDoes | internal/agentcontrol/platform_repository.go:166-237 | a draft is created exactly for a package that is canonical and passes the scan, on an active platform, for a definition whose head is its base and that has no draft; it starts at revision 1 with that content |
| PlatformSubmissionSpec.UpdateDoes | internal/agentcontrol/platform_repository.go:239-329 | under lawful rules a draft is revised exactly at its current revision, unarchived, for a storable package on a valid target; the row gets the new content and the next revision, and nothing else changes |
| PlatformSubmissionSpec.SubmitDoes | internal/agentcontrol/platform_repository.go:331-419 | under lawful rules a draft is submitted exactly at its current revision, unarchived, past the scan and on a valid target; the row names actor, time, revision and content, and pending submissions of the draft are superseded |
| PlatformSubmissionSpec.WithdrawDoes | internal/agentcontrol/platform_repository.go:421-482 | a withdrawal commits exactly for the submitter of a pending submission at its revision, and closes that row only |
| PlatformSubmissionSpec.StrangersMayNotWithdraw | internal/agentcontrol/platform_repository.go:454-456 | anybody else is refused as forbidden where the submitter would not be |
| PlatformReviewSpec.RejectDoes | internal/agentcontrol/platform_repository.go:484-646 | under lawful rules a rejection commits exactly on a pending submission at its revision by another person on an active platform, and leaves the review row and the closed submission |
| PlatformReviewSpec.ApproveDoes | internal/agentcontrol/platform_repository.go:484-646 | under lawful rules an approval commits exactly where, moreover, the base is still the head, the channels are permitted and the version is built of the submission's content under the next number; it writes that version, makes it the head, opens the requested channels and records the review |
| PlatformReviewSpec.OwnReviewIsRefused | internal/agentcontrol/platform_repository.go:516-522 | reviewing one's own submission is refused as that where another person might review it |
| PlatformReviewSpec.InitialsDo | internal/agentcontrol/platform_repository.go:2359-2397 | of the requested channels exactly those without a release get one, paused at revision 1 on the version; the insertion fails exactly when an identifier is taken |
| PlatformTheorems.PublishedContentIsDraftContent | internal/agentcontrol/platform_repository.go:331-419 | a published version holds the canonical content its draft had at the submitted revision, and no moment of the run shows that revision with other content |
| PlatformTheorems.ReleaseChain | internal/agentcontrol/platform_repository.go:869-965 | a release's revisions are numbered 1..head, the current pointer is the head, each previous pointer is one below, each rollback target lies before the predecessor, each names an approved version of the same definition |
| PlatformTheorems.HistoryIsImmutable | internal/agentcontrol/platform_repository.go:1413-1442 | a written revision and its audience never change |
| PlatformTheorems.HeadStateIsLatestSetting | internal/agentcontrol/platform_repository.go:1505-1580 | the state of every revision is the one set by the latest initial, activate, pause or resume revision |
| PlatformTheorems.SettingsComeFromHistory | internal/agentcontrol/platform_repository.go:1582-1593 | pause, resume and rollback take version, rollout settings and audience from an earlier initial, activate or rollout-update revision |
| PlatformTheorems.AtMostOneWinner | internal/agentcontrol/platform_repository.go:882-925 | of all commands expecting the same head of a release at most one commits a revision |
| PlatformTheorems.AppendReturnsStoredView | internal/agentcontrol/platform_repository.go:925-965 | the view a fresh command returns is the one its revision loads as right after the commit (what that revision holds: `PlatformReleaseSpec.AppendLeaves`) |
| PlatformReleaseSpec.AppendAcceptsIff | internal/agentcontrol/platform_repository.go:869-925 | in every reachable state a command under a new key is accepted exactly when it is filled in as its action needs, expects the current head, and the rows let its action through (an approved version of the definition, an active audience, the state the action starts from, an earlier target) |
| PlatformReleaseSpec.AppendLeaves | internal/agentcontrol/platform_repository.go:1505-1580 | and the stored revision then has version, rollout and audience of the command on activation, rollout and audience of the command with the head's version on a rollout update, the target's on a rollback, the head's on pause and resume; actor, reason, ticket, target and time are the command's, and nothing else changes |
| PlatformReleaseSpec.OtherHeadConflicts | internal/agentcontrol/platform_repository.go:905-907 | a command that expects another head is refused as a revision conflict |
| PlatformTheorems.RetryReturnsHistory | internal/agentcontrol/platform_repository.go:2446-2506 | a retry after any later events changes nothing and returns the first view but for update time and replay mark; the same key with another request conflicts |
| PlatformTheorems.RetriedReviewReturnsSameSubmission | internal/agentcontrol/platform_repository.go:484-560 | a retried review changes nothing and returns the submission as the first call left it |
| PlatformTheorems.RetriedWithdrawalReturnsSameSubmission | internal/agentcontrol/platform_repository.go:421-482 | the same for a retried withdrawal |
| PlatformRetries.RetriedReservation | internal/agentcontrol/platform_repository.go:105-164 | a retried reservation changes nothing and returns the definition reserved first |
| PlatformRetries.RetriedCreation | internal/agentcontrol/platform_repository.go:166-237 | a retried creation changes nothing and returns the draft it created, as it now is |
| PlatformRetries.RetriedUpdate | internal/agentcontrol/platform_repository.go:239-329 | a retried update is not applied again and returns the draft at the revision it made or a later one |
| PlatformRetries.RetriedSubmission | internal/agentcontrol/platform_repository.go:331-419 | a retried submission submits nothing again and returns the first one, as it now is, marked as replayed |
| PlatformRetries.OtherRequestConflicts | internal/agentcontrol/platform_repository.go:2446-2478 | the same key with another request is refused in every later state |
| PlatformProofs.ReachableInv | internal/agentcontrol/platform_repository.go:31-965 | every reachable state keeps the whole invariant over drafts, submissions, versions, releases and idempotency rows |
| PlatformIntegrity.StoredRowsAlwaysLoad | internal/agentcontrol/platform_repository.go:1911-2105 | in every reachable state every draft and every submission passes the integrity check of its load, and reads back as the package written |
| PlatformIntegrity.SubmitNeverFailsIntegrity | internal/agentcontrol/platform_repository.go:359-384 | submitting a draft is never refused for the integrity of what the draft holds |
| PlatformIntegrity.ReviewNeverFailsIntegrity | internal/agentcontrol/platform_repository.go:525-585 | a review is never refused for the integrity of what the submission holds; only a version built differently can be |
| PlatformIntegrity.UpdateAcceptsIff | internal/agentcontrol/platform_repository.go:270-290 | an update past its other guards is taken exactly when every path, once normalized, passes the raw guard, and then loads as the canonical package; otherwise it is refused as an invalid command |
| PlatformRepository.Repository.InsertInitialOfficialReleases | internal/agentcontrol/platform_repository.go:2359-2397 | the loop inserts one initial release per requested channel that has none, as the recursive step says |
| PlatformRepository.Repository.InsertOfficialAudience | internal/agentcontrol/platform_repository.go:1660-1670 | the loop adds exactly the audience rows of the revision |
| OrganizationProofs.VersionLineage | internal/agentcontrol/organization_submission_repository.go:627-743 | the version lineage of every organization definition, as for the platform |
| OrganizationSpec.StaleApprovalSupersedes | internal/agentcontrol/organization_submission_repository.go:409-524 | in every reachable state an approval that passes its guards answers with the superseded error exactly when its submission is a `next` one on a definition of the organization that is not archived and whose head is no longer the base, whatever was built for it, and then commits the status change and nothing else |
| OrganizationSpec.ApproveDoes | internal/agentcontrol/organization_submission_repository.go:409-524 | an approval commits exactly where role, account and organization status and the pending row allow the decision and either the base has moved, or the base is the head (or the initial definition is free) and the version is built of the submission's content under the next number; then that version is written, is the new head, and the answer is the approved submission |
| OrganizationSpec.SubmitDoes | internal/agentcontrol/organization_submission_repository.go:80-175 | a submission commits exactly for a publisher of an active organization and a storable, clean package on a valid target; the row names actor, time and content |
| OrganizationSpec.WithdrawDoes | internal/agentcontrol/organization_submission_repository.go:254-322 | a withdrawal commits exactly for the submitter of a pending submission, and closes that row only |
| OrganizationSpec.RejectDoes | internal/agentcontrol/organization_submission_repository.go:324-407 | a rejection commits exactly for a publisher on a pending submission at its revision, and leaves the review and the closed row |
| OrganizationSpec.SubmissionGoesBack | internal/agentcontrol/organization_submission_repository.go:80-175 | every stored submission goes back to a committed submit event whose organization, actor and time its row holds |
| OrganizationSpec.OnlySubmittersWithdraw | internal/agentcontrol/organization_submission_repository.go:254-322 | every committed withdrawal is by the person whose event submitted |
| OrganizationProofs.TerminalLoadPersists | internal/agentcontrol/organization_submission_repository.go:920-1049 | a terminal submission loads the same in every later state, its content canonicalized again and compared |
| OrganizationProofs.RetriedApproval | internal/agentcontrol/organization_submission_repository.go:745-774 | a retried approval by a still-authorized actor gives the same submission, or the same superseded error |
| OrganizationProofs.RetriedRejection | internal/agentcontrol/organization_submission_repository.go:324-407 | the same for a retried rejection |
| OrganizationProofs.RetriedWithdrawal | internal/agentcontrol/organization_submission_repository.go:254-322 | the same for a retried withdrawal |
| OrganizationProofs.RunInv | internal/agentcontrol/organization_submission_repository.go:80-524 | every run keeps the invariant and only adds to, or moves on, what it started from |
| OrganizationIntegrity.StoredRowsAlwaysLoad | internal/agentcontrol/organization_submission_repository.go:920-1019 | in every reachable state every stored submission loads as exactly the package written, and passes the second check an approval makes |
| OrganizationIntegrity.ApprovalNeverFailsIntegrity | internal/agentcontrol/organization_submission_repository.go:612-625 | no approval in any run is refused for invalid content unless the version builder says so |
| OrganizationIntegrity.ReplaysNeverFail | internal/agentcontrol/organization_submission_repository.go:1068-1100 | a retry whose first call is on record always loads its submission |
| OrganizationIntegrity.SubmitAcceptsIff | internal/agentcontrol/organization_submission_repository.go:526-562 | of a package that canonicalizes, submitting accepts the content exactly when every submitted path, once normalized, passes the raw guard and the scan finds nothing |
| OrganizationIntegrity.SubmittedContentIsKept | internal/agentcontrol/organization_submission_repository.go:80-175 | canonicalized under that condition and submitted past the other guards, a package is stored, and after any further events loads with the very content it canonicalized to |
| AccountTheorems.AccountStatesHold | internal/account/lifecycle_repository.go:252-290 | in every reachable state: active means active space, password, no administrative or deletion mark; pending means a request time and a disabled space; disabled means administratively disabled, or finalised after the window with space and password gone |
| AccountTheorems.FinalizedForever | internal/account/lifecycle_repository.go:600-629 | a finalised account keeps its status and deletion marks for ever |
| AccountTheorems.DecisionAnswersRequest | internal/account/lifecycle_repository.go:323-411 | every recovery answers a request less than seven days old and every finalisation one at least seven days old, the account being pending all the while |
| AccountTheorems.RequestDecidedOnce | internal/account/lifecycle_repository.go:345-411 | a deletion request is decided at most once, by recovery or by finalisation |
| AccountTheorems.FirstRevocationStands | internal/session/repository.go:141-170 | the first revocation fixes the time of every session and entitlement for good; a session revoked at one state and there at a later one has the same reason exactly when no event in between replays its family (or that already was the reason), and the replay as reason otherwise; a revoked device is the same row in every state up to a later one exactly when no event in between authorizes it again |
| RevocationExample.RevocationsDoNotAllStand | internal/device/repository.go:103-109 | a run in which a session revoked by logging out gets the replay as its reason at the same revocation time, and a revoked device becomes active |
| AccountTheorems.DisableGuardsAgree | internal/admin/control_repository.go:916-921 | in every reachable state the operator command and the control API disable exactly the active users, with the same effect (which effect: `LifecycleSpec.DisableDoes`) |
| AccountTheorems.EnableGuardsAgree | internal/admin/repository.go:56-92 | and enable exactly the administratively disabled ones, with the same effect |
| LifecycleSpec.DisableDoes | internal/admin/repository.go:240-281 | disabling commits exactly for an active user; it leaves the user disabled, administratively marked, one revision on, the space shut, and exactly that user's devices, sessions and entitlements revoked |
| LifecycleSpec.EnableDoes | internal/admin/repository.go:283-306 | enabling commits exactly for an administratively disabled user; it leaves the user active, unmarked, one revision on, the space open, and nothing else changed |
| LifecycleSpec.RevokeDoes | internal/admin/repository.go:94-134 | revoking a session ends exactly the sessions of its family and moves the user's revision by one |
| LifecycleSpec.ActionLeaves | internal/admin/control_repository.go:820-936 | for each of the six actions: the user's row and space as the action says, the drawn secret as password on a forced reset, exactly the covered rows revoked, nothing else changed |
| LifecycleSpec.ExecuteLeaves | internal/admin/control_repository.go:645-716 | a control call that took effect leaves exactly that, beside its operation row and audit event |
| DisabledTheorems.ShutOutIff | internal/admin/repository.go:240-306 | in every state of every run a user is disabled, marked and without space exactly if some event (operator or control call) disabled the user and none since enabled the user |
| DisabledTheorems.DisabledUntilEnabled | internal/admin/repository.go:240-281 | and all that time no login receipt, password reset or change, device authorization, new session or refresh of that user goes through and no access check passes |
| DisabledTheorems.EnabledIsActive | internal/admin/repository.go:283-306 | after the event that enables a user the user is active, unmarked and has the space |
| LifecycleSpec.RequestDoes | internal/account/lifecycle_repository.go:215-291 | a deletion is requested exactly by the active owner of the login with a usable receipt and no owned organization; the user is pending, the space shut, everything revoked |
| LifecycleSpec.RecoverDoes | internal/account/lifecycle_repository.go:323-381 | recovery commits exactly for a pending user within seven days with a usable receipt, and restores status and space |
| LifecycleSpec.FinalizeDoes | internal/account/lifecycle_repository.go:383-654 | finalisation commits exactly after seven days of a pending deletion with no owned organization, and deletes exactly the rows of that user |
| AccountSpec.RegisterDoes | internal/account/repository.go:29-112 | registration commits exactly for a free login sealed under a ring key, with a usable receipt or directly by e-mail, under new identifiers; it adds the user, space, password and identity and spends the receipt |
| AccountSpec.LoginDoes | internal/account/repository.go:172-247 | a login receipt is spent exactly for the active owner of the login, and nothing else changes |
| AccountSpec.ResetDoes | internal/account/repository.go:249-318 | a reset commits exactly for the owner of the login unless disabled; the new password is stored and exactly the owner's live sessions are revoked |
| AccountSpec.ChangeDoes | internal/account/lifecycle_repository.go:140-213 | a password change commits exactly from a session of the active user that is neither revoked nor expired, and stores the new password |
| AccountEffects.PasswordChangeKeepsOneSession | internal/account/lifecycle_repository.go:160-205 | a password change revokes exactly the user's other sessions, devices and entitlements |
| AccountSpec.BindDoes | internal/account/repository.go:320-381 | a login is bound exactly for an active user without one of its kind, with a usable receipt, if nobody has it |
| AccountSpec.RemoveDoes | internal/account/lifecycle_repository.go:79-138 | a login is removed exactly when the user has it and another one |
| AccountTheorems.LoginsStayUnique | internal/account/repository.go:320-381 | no login is bound twice, a user has at most one identity of a kind, and every user not finalised has one, with lookup keys added or switched |
| AccountTheorems.LoginFindsOwner | internal/account/repository.go:417-437 | looking a login up finds its owner under whichever key it was stored, unless a stored digest collides |
| AccountTheorems.ScopeIgnoresActiveKey | internal/account/repository.go:439-462 | the lock taken for a login depends on the key set only, not on which key is active |
| AccessTheorems.RunAccess | internal/session/repository.go:64-94 | in every reachable state a session not revoked runs on an active device of its own active user, devices and entitlements belong to accounts not finalised, and nobody has more active devices than allowed |
| AccessTheorems.AccessIsTheSession | internal/session/repository.go:23-44 | the four-table check made on every request holds, in every reachable state, exactly when the session row alone is live, unexpired and matches |
| AccessTheorems.RefreshIff | internal/session/repository.go:97-190 | a refresh goes through exactly for a session neither replaced nor revoked nor expired, and its successor then passes the access check, though the refresh never compares the device's owner with the session's |
| SessionTheorems.ReplayEndsFamily | internal/session/repository.go:141-156 | after a replayed refresh token no session of the family is live in any later state, sessions added later included, and those that were there carry the replay as their reason |
| SessionTheorems.OneOpenPerFamily | internal/session/repository.go:174-186 | in every reachable state a session family has at most one session neither revoked nor replaced |
| AccessTheorems.DeviceLimitHolds | internal/device/repository.go:69-131 | no user ever has more active devices than the configured limit, through re-authorization and change of owner |
| AccessSpec.DevicesStayApart | internal/device/repository.go:125-141 | in every reachable state no two devices share an installation or a key |
| AccessSpec.ReturnDoes | internal/device/repository.go:69-123 | a known installation is authorized again exactly with its own key, for its user or once revoked for one it holds no backup against, with room if it was not active; its device is then active for that user |
| AccessSpec.AddDoes | internal/device/repository.go:124-149 | a new installation is authorized exactly for an active user with room and an unused key, and adds that device only |
| AccessSpec.RevokeDeviceDoes | internal/device/repository.go:174-230 | an active user may revoke exactly an own device not revoked yet; it, its sessions and its entitlements are revoked and nothing else |
| AccessSpec.SelfRevokeDoes | internal/device/repository.go:303-367 | an active device may revoke itself under a new nonce, with the same effect |
| AccessSpec.CreateDoes | internal/session/repository.go:64-94 | a session is opened exactly for an active user on that user's active device of the installation; the space needs no test of its own |
| AccessSpec.RefreshDoes | internal/session/repository.go:97-190 | in every reachable state: a replayed token gives its whole family that reason, a revoked or expired one ends its family, an open one is replaced by a successor with the same user, device and family |
| AccessSpec.LogoutDoes | internal/session/repository.go:207-236 | logging out ends exactly the family of the presented session |
| AccessSpec.SweepDoes | internal/jobs/postgres.go:634 | the sweep removes exactly the sessions that have expired |
| AccessTheorems.FinalizedLeavesNothing | internal/account/lifecycle_repository.go:600-629 | at any time after finalisation the account has no login, password, space, device or entitlement and no session that is not revoked |
| AccountEffects.SignOutLasts | internal/account/lifecycle_repository.go:160-280 | after a committed disable, deletion request, password change or reset, forced logout, device or session revocation, every session, device and entitlement it covered is revoked in every later state with the time of its first revocation, sessions with its reason exactly until their family is replayed, and whatever of that user is live was spared or came later (devices until authorized again) |
| AccountEffects.FinalizedChallengesGone | internal/account/lifecycle_repository.go:600-607 | challenges addressed to an account's logins when it was finalised never come back |
| AccountEffects.ActionAppliesIff | internal/admin/control_repository.go:820-936 | with the invariant in force an action takes effect exactly when its target exists, the expected revision is current and the state allows it; a missing target is told from a conflict, and nothing is abandoned while the clock works |
| AccountProofs.RunInv | internal/account/lifecycle_repository.go:79-654 | every state of every run keeps the invariant over users, spaces, passwords, identities, challenges, devices, sessions, entitlements and operations |
| AccountProofs.RunExtends | internal/admin/repository.go:240-439 | a later state of a run only advances an earlier one: revisions grow, finalised rows stay, revoked rows stay as they are, sessions of the families replayed in between carry that reason, devices authorized again in between keep installation and key; operations and audit events are never changed |
| ReceiptTheorems.OneEffectPerChallenge | internal/account/repository.go:486-499 | in every run a verification challenge backs at most one committed registration, login, reset, binding, deletion or recovery |
| ReceiptTheorems.EffectMatchesIssue | internal/account/repository.go:383-415 | the step a challenge backs has the purpose, kind and login the challenge was issued for, up to a digest collision |
| ReceiptTheorems.UnusedReceiptStays | internal/account/repository.go:169-247 | a step that fails, or commits on another receipt, leaves an available receipt available unless its challenge is deleted |
| OperationTheorems.EffectIffSucceeded | internal/admin/control_repository.go:645-716 | user state changes exactly when the call ran and succeeded, for one user and by one revision past the expected one; every other call leaves all but its own record alone |
| OperationTheorems.OperationsSettled | internal/admin/control_repository.go:938-1015 | every operation row written by `Execute` is closed and valid, has exactly one audit event that agrees with it, and a success ended at expected + 1 |
| OperationTheorems.RetryGivesSameAnswer | internal/admin/control_repository.go:1069-1099 | a retry after any later events changes nothing and returns the same operation and error while the sealing key is in the ring |
| OperationTheorems.RunsAtMostOnce | internal/admin/control_repository.go:737-772 | an operation identifier runs at most once in a run |
| OperationTheorems.ReusedIdentifierConflicts | internal/admin/control_repository.go:1069-1083 | the same identifier with another request is refused and changes nothing, unless the key collides on the two requests |
| OperationTheorems.ResultsIncrease | internal/admin/control_repository.go:820-936 | the revisions successful operations report for one user strictly increase along a run |
| AccountRepository.FindStable | internal/account/repository.go:448-453 | the loop finds the candidate with the least key |
| AccountRepository.FindUserByClaims | internal/account/repository.go:417-437 | the loop finds the owner of the first stored candidate |
| AccountRepository.FindIdentity | internal/account/repository.go:464-484 | the loop decides whether any candidate of the login is stored |
| AccountRepository.CountIdentities | internal/account/lifecycle_repository.go:99-117 | the loop counts the user's identities and finds whether the kind is among them |
| AccountRepository.LookUpOperation | internal/admin/control_repository.go:737-772 | the search by identifier, then by each digest in ring order, is the lookup the theorems speak of |
| ManifestProofs.OrderDoesNotMatter | internal/agentcontrol/manifest.go:49-265 | acceptance, error and canonical value are the same for every order of assets, files, tools, models, providers, dependencies and requirements, and of the tools inside a requirement |
| ManifestProofs.AcceptedIsConsistent | internal/agentcontrol/manifest.go:58-147 | accepted manifest and bundle name exactly the same paths with matching digests, the files fit the bundle limit, allowed and denied tools are disjoint |
| ManifestProofs.AcceptedLosesNothing | internal/agentcontrol/manifest.go:188-246 | every list of the accepted value is strictly ordered and holds exactly the submitted items, paths normalized, and schema, prompt and mode are as submitted |
| ManifestAcceptance.AcceptedIff | internal/agentcontrol/manifest.go:49-265 | a manifest and bundle are accepted exactly when, said of the submitted lists: schema and limits fit, names are proper and distinct, allowed and denied tools are disjoint, the model policy fits its mode, paths are safe, assets and files pair up by path with matching digests, kinds and media types are known, requirements name allowed tools only, dependencies are proper, the runtime range is accepted and the encoding is not too long; which error is given otherwise |
| ManifestAcceptance.AcceptedRequirementsFit | internal/agentcontrol/manifest.go:366-415 | in accepted content every tool of every requirement is allowed and not denied, requirement names are distinct, and tool counts lie in 1..128 |
| ManifestAcceptance.SegmentsArePieces | internal/agentcontrol/manifest.go:511-528 | the pieces a path is tested by are its stretches between slashes |
| ManifestProofs.TotalPermutes | internal/agentcontrol/manifest.go:61-77 | the byte total does not depend on the order of the files |
| ManifestProofs.PathAgain | internal/agentcontrol/manifest.go:511-528 | an accepted path is accepted again after normalization exactly when it passes the raw guard |
| ManifestProofs.CanonicalAgainIff | internal/agentcontrol/manifest.go:49-265 | decoding the canonical value and canonicalizing again gives it back when every submitted path, once normalized, passes the raw guard, and is refused as invalid content otherwise |
| ManifestProofs.NormalizedPathsPass | internal/agentcontrol/manifest.go:511-528 | for accepted files whose paths were already normalized that condition always holds |
| ManifestProofs.KelvinPathAcceptedOnce | internal/agentcontrol/manifest.go:511-518 | a path beginning with the Kelvin sign is accepted once and refused after normalization |
| ManifestProofs.KelvinVersionAcceptedOnce | internal/agentcontrol/manifest.go:49-147 | a whole manifest and bundle are accepted, and refused once read back from their canonical form |
| ManifestLoops.CanonicalStringSet | internal/agentcontrol/manifest.go:530-548 | the loop with its set of values seen gives the canonical string set, or rejects exactly when the order-free definition does |
| ManifestLoops.CanonicalFiles | internal/agentcontrol/manifest.go:58-77 | the same for bundle files; the running total trips exactly when the whole sum is too large |
| ManifestLoops.CanonicalAssets | internal/agentcontrol/manifest.go:79-105 | the same for manifest assets, looked up by path |
| ManifestLoops.CanonicalRequirements | internal/agentcontrol/manifest.go:366-415 | the same for MCP requirements (what acceptance means: `ManifestAcceptance.AcceptedIff`) |
| ManifestLoops.CanonicalDependencies | internal/agentcontrol/manifest.go:157-173 | the same for dependencies |
| ManifestLoops.Canonicalize | internal/agentcontrol/manifest.go:49-265 | the whole canonicalization step by step is the canonicalization the theorems speak of |
| CanonicalList.CanonPermutes | internal/agentcontrol/manifest.go:188-198 | a list accepted item by item with distinct keys and sorted by key is the same for every order of its items |
| CanonicalList.CanonFixed | internal/agentcontrol/manifest.go:188-198 | such a list is its own canonical form |
| SubmissionPackage.StorableIff | internal/agentcontrol/organization_submission_model.go:93-144 | of either pipeline: what a package canonicalizes to canonicalizes to itself, and can be written, exactly when every submitted path, once normalized, passes the raw guard |
| SemVer.CompareSemanticVersion | internal/agentcontrol/manifest.go:629-678 | the loops compute the comparison the order results speak of |
| SemVer.CompareAntisymmetric | internal/agentcontrol/manifest.go:629-678 | reversing the operands reverses the sign, and a version equals itself |
| SemVer.CompareTransitive | internal/agentcontrol/manifest.go:629-678 | the comparison is transitive on all versions |
| SemVer.AgreesIffExact | internal/agentcontrol/manifest.go:648-660 | a version compares as section 11 of Semantic Versioning 2.0.0 demands against all versions exactly when its numeric identifiers stay below 2^64 - 1 |
| SemVer.SaturationExample | internal/agentcontrol/manifest.go:648-660 | 1.0.0-18446744073709551615 precedes 1.0.0-184467440737095516150 by section 11 and compares equal to it |
| SemVer.ParseOfRender | internal/agentcontrol/manifest.go:579-599 | every well-formed version has a text that parses to exactly it |
| SemVerGrammar.ParsesIff | internal/agentcontrol/manifest.go:579-619 | a text parses exactly when the grammar of Semantic Versioning 2.0.0, with an optional leading v and 64-bit numbers, spells it, and then to what it spells; build metadata is accepted and not compared |
| SemVer.ParsedIsWellFormed | internal/agentcontrol/manifest.go:579-619 | parsing yields 64-bit numbers and proper identifiers only |
| SemVer.NormalizationIdempotent | internal/agentcontrol/manifest.go:590-598 | normalizing again changes neither text nor version |
| SemVer.AcceptedRangesAreNonEmpty | internal/agentcontrol/manifest.go:175-186 | a runtime range is accepted exactly when its bounds parse and some well-formed version lies in it |
| SemVer.RangeIdempotent | internal/agentcontrol/manifest.go:175-186 | an accepted range is accepted again as stored |
| Protector.NewProtector | internal/admin/protector.go:37-58 | the ring is accepted exactly when its keys are usable and the active one is there; the order is the active key then the others ascending, whatever order the map is walked in |
| Protector.OrderUnique | internal/admin/protector.go:55-56 | key set and active key determine the order |
| Protector.ProtectedDigest | internal/admin/protector.go:200-211 | the digest is taken of the framed message |
| Protector.MessageInjective | internal/admin/protector.go:200-211 | a framed message determines its domain and its fields |
| Protector.FramingInjectiveIff | internal/admin/protector.go:204-208 | the framing of fields shorter than a bound is injective exactly for bounds up to 2^32 |
| Protector.RequestMessageInjective | internal/admin/protector.go:74-105 | a framed request determines action, target and every command field, absent approval included |
| Protector.SameFingerprintSameRequest | internal/admin/protector.go:74-105 | under a key that does not collide on them, two valid requests share a fingerprint exactly when they are equal |
| Cursor.BuildCursor | internal/admin/protector.go:142-160 | appending the parts and sealing them gives the cursor the results speak of |
| Cursor.EncodeAlwaysFits | internal/admin/protector.go:142-160 | a cursor is issued exactly for a valid resource, a non-zero time and a non-nil identifier: the 512-character limit is never hit |
| Cursor.CursorRoundTrip | internal/admin/protector.go:162-198 | a cursor opens under every ring that still holds its key; the position comes back exactly when its time fits 64 bits |
| Cursor.LateCursorComesBackEarly | internal/admin/protector.go:142-198 | the position at 2^63 nanoseconds is issued as a cursor and comes back at -2^63 |
| Cursor.DecodeAcceptsIssued | internal/admin/protector.go:162-198 | a token is read as a position exactly when a key of the ring would issue it for that position |
| Cursor.DecodeOfEncode | internal/admin/protector.go:155-167 | decoding inverts the unpadded base64 encoding |
| Paging.ListingOf | internal/admin/control_repository.go:71-77 | the listing holds every row once, newest first |
| Paging.PageFrom | internal/admin/control_repository.go:532-541 | a page continued after a position holds the next rows, and points on exactly when more follow |
| Paging.WalkVisitsEveryRowOnce | internal/admin/control_service.go:285-318 | walking by returned cursors, with any limits and rings that keep the last sealing key, never fails, shows every row exactly once in strict descending order, and ends within one request more than there are rows |
| RateLimit.AtMostTwiceTheLimit | internal/account/limiter.go:17-23 | on every timeline any interval of one window admits at most twice the limit per key, and every counter window begun along it at most the limit |
| RateLimit.WindowKeepsItsStart | internal/account/limiter.go:17-23 | attempts within a window, refused ones included, never move its start |
| RateLimit.CounterCounts | internal/account/limiter.go:17-23 | a counter holds the number of attempts since its window began |
| RateLimit.LetThroughIff | internal/account/limiter.go:51-68 | a call is let through exactly when none of its keys was tried more often than its limit in its window, so the first attempts up to the limit are |
| RateLimit.AdmissibleAfterWindow | internal/account/direct_registration_limiter.go:17-21 | once a full window has passed since it began, a key's own counter admits it |
| RateLimit.Limiter.AllowLogin | internal/account/limiter.go:51-68 | the call joins the limiter's timeline, whose counters the object holds, and is let through exactly when both are within their limits; a malformed call is not counted |
| RateLimit.Limiter.AllowRegistration | internal/account/direct_registration_limiter.go:48-71 | the same with the one counter |
| RateLimit.NewLoginLimiter | internal/account/limiter.go:37-49 | a login limiter is made exactly for the policies the constructor accepts, and then starts an empty timeline the results apply to |
| RateLimit.NewRegistrationLimiter | internal/account/direct_registration_limiter.go:34-46 | the same for the registration limiter |

## Left out

- HTTP handlers, routing, JSON text, configuration, TLS, key files and migrations: plumbing around the steps.
- Ed25519, Argon2, AES and the insides of HMAC and SHA-256: functions only.
- PostgreSQL locking, isolation and jsonb reformatting, and Redis internals: transactions and scripts are atomic steps.
- Several platforms: the model holds the rows of one platform. Policy snapshots, organizations and memberships around the steps are set by an event and not modelled further.
- Audit rows of the publication pipelines.
- OperationTheorems.OperationsSettled: is about the rows `Execute` writes; the official pipeline and the quality proposals also write succeeded rows into the table of administrative operations, which are not modelled and need not end at expected + 1.
- JSON encoding and decoding of manifests and bundles: rows hold the canonical value itself, and decoding it gives it back. Digests and the findings of the publication scan are functions of the content.
- PlatformTheorems.PublishedContentIsDraftContent: is about lawful rules (see above), because updating canonicalizes a package twice without comparing the results.
- Role, pattern and syntax checks of publication commands appear as one `wellFormed` flag, those of administrative texts as `textsClean`.
- The nonces of device self-revocation and the backup rows that keep a device from changing owner: each is one flag of the command. Authorization codes, access tokens and the desktop control state.
- AccessTheorems.FinalizedLeavesNothing: revoked sessions of a finalised account may remain on a device another account has authorized since, until they expire; the code deletes sessions with their devices.
- Rehashing a password at login, profiles, statistics, membership listings and identity masking: easy reads and writes.
- Identifier clashes of audit, acceptance and space rows: those identifiers are fresh.
- The redaction of audit rows and the deletion of workspace, agent and invitation rows on finalisation: only users, spaces, passwords, identities, challenges, devices, sessions and entitlements are followed.
- 64-bit overflow of administrative revisions and password versions: they are unbounded.
- Official administrative operations (`ProtectOfficialOperation`), organization experience candidates, rollout bucketing and policy intersection: smaller copies of what is covered, or other code.
- Containment of asset paths: no claim is made; `..` alone is accepted by the code and by the model.
