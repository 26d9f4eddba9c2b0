# A verified model of the share-link CMS

A Dafny model of the protocols the CMS runs over its database rows, its caches and its offline scripts,
with proofs of what they keep. Every Prisma `$transaction` and every conditional `updateMany` is one
atomic step on a value that holds the rows; between two steps any other request may run. Identifiers
are numbers (only equality and order matter), instants are integers in milliseconds, and whatever comes
from outside, a clock reading, a random identifier, a salted hash, the order in which rows are returned
or an answer from Bunny, is a parameter.

Where the source changes state step by step, three layers describe it: functions on the rows, one per
transaction; a class whose methods are the statements of the service and whose contracts equate them
with those functions; and runs, in which any number of calls interleave.

| file | what it models |
|---|---|
| `Wrappers`, `Sets`, `JsText`, `ShareLinks`, `Paging` | options, set sizes, `String.trim`, the link status, paging by primary key |
| `AdminModel`, `AdminStore`, `AdminRuns` | admin accounts, sessions, refresh tokens and their retention |
| `CanonicalPolicy`, `CanonicalModel`, `CanonicalStore`, `CanonicalRuns`, `CanonicalAudit` | the one permanent share link of a website and video, and the audit that predicts it |
| `WatchModel`, `WatchService`, `WatchRuns` | public watch resolution, the view budget, the watch cache |
| `ViewGrowth` | the capped, deduplicated view-growth ledger |
| `MemoryCache`, `SingleFlight` | the in-process LRU cache and its shared loads |
| `ShareLinkSweep`, `SweepContention` | re-activation of links darkened by a disabled video, alone and among other writers |
| `BunnyAsset`, `BunnySweep`, `WorkerPool` | Bunny metadata, its reconciliation, the bounded worker pool |
| `WebsiteAssignments`, `DomainPool` | which videos and which domain a website has |
| `ByteRanges` | Range headers and the bytes they select |

`dafny verify dfyconfig.toml` checks the whole project.

## What turned out not to hold

Each of these is stated with the exact condition under which the code does meet the property, and with a
concrete instance in which it does not.

- An exchanged refresh token is not recognised for ever: the retention clean-up deletes it by its own age,
  also while its session lives on, and replaying it then revokes nothing (`AdminRuns.ExchangedTokenIsKnownIff`,
  `AdminStore.ReplayIsAnsweredIff`, `AdminStore.ReplayCanBeForgotten`).
- Operator adoption asks only for a non-empty alias, so an alias of spaces is adopted and the mapping is
  refused from then on (`CanonicalModel.AdoptionIsReusableIff`, `CanonicalModel.BlankAliasCanBeAdopted`). Its
  commit rechecks nothing, so a link revoked meanwhile is pinned too (`CanonicalRuns.LateAdoptionIsUsableIff`,
  `CanonicalRuns.RevokedLinkCanBeAdopted`).
- A view is claimed against the request's own clock reading, taken before the claim commits
  (`WatchRuns.ClaimIsTimelyIff`, `WatchRuns.ExpiredLinkCanBeClaimed`).
- The growth ramp bounds a run exactly as far as its reads are good enough
  (`ViewGrowth.RecordIsRampedIff`, `ViewGrowth.StaleReadsBreakTheRamp`). The hourly cap holds in every run.
- Clearing a remote-missing marker after applying it restores the metadata only if they were a record
  without that key (`BunnyAsset.ApplyThenClearIff`, `BunnyAsset.ApplyThenClearCanDiffer`).
- A repeated share-link apply flips nothing exactly if no link just beyond the first run's reach is
  usable (`ShareLinkSweep.SecondApplyFlipsNothingIff`, `ShareLinkSweep.SecondApplyCanFlip`).
- A contended share-link apply goes by what it read: it may restore a link that is no longer usable
  (`SweepContention.UndisturbedVerdictIsSafeIff`, `SweepContention.StaleVerdictRestores`), but never a revoked one.
- The Bunny sweep updates by id what it read a page earlier, so it can overwrite a DISABLED that came in between
  (`BunnySweep.LateOutcomeKeepsDisabledIff`, `BunnySweep.DisabledCanBeOverwritten`).
- A load in flight during an invalidation still writes what it read before it; without one, nothing stale
  returns (`SingleFlight.StaleWriteIff`, `SingleFlight.StaleWriteHappens`).
- Domain operations check first and write later. What each late write may break, and when:
  `DomainPool.LateInsertKeepsOwnershipIff` with `DomainPool.ConcurrentCreationsShareAWebsite`,
  `DomainPool.LateUpdateKeepsSoundIff` with `DomainPool.LateUpdateBreaksThePool`,
  `DomainPool.LateDisableKeepsSoundIff` with `DomainPool.LateDisableBreaksThePool`,
  `DomainPool.LateAssignKeepsSoundIff` and `DomainPool.LateAssignTakesDomainIff` with
  `DomainPool.LateAssignBreaksThePool`, `DomainPool.LateWriteKeepsAnchorsIff` with
  `DomainPool.LateUpdateBreaksAnchors`.
- Replacing a website's domain detaches one that canonical links are anchored to
  (`DomainPool.AnchoredDomainStaysIff`, `DomainPool.ReplaceIgnoresAnchors`).
- The audit names a structural fault before a withdrawn link's status and the runtime the other way
  round, so they agree if and only if the link is ACTIVE or has no such fault
  (`CanonicalAudit.AuditAgreesWithRuntime`, `CanonicalAudit.AuditAndRuntimeCanDiffer`).

## Model

| member | source | states |
|---|---|---|
| `AdminRuns.StepKeepsInv` | src/admin-accounts/admin-accounts.service.ts:171-450 | every account, session or clean-up transaction, with whatever stale reads its caller holds, keeps: sessions current, tokens backed by their session, one owner |
| `AdminRuns.UnrevokedSessionsAreCurrent` | src/admin-auth/admin-auth.service.ts:783-840 | in every interleaving an unrevoked session belongs to an ACTIVE, undeleted admin and was opened under the password hash and the role that admin has now |
| `AdminRuns.LiveTokenOwnsItsSession` | src/admin-auth/admin-auth.service.ts:260-347 | an unrevoked refresh token has an unrevoked session with the same admin and expiry, and is that session's only one |
| `AdminRuns.TokenRotatesAtMostOnce` | src/admin-auth/admin-auth.service.ts:260-271 | one token value is exchanged successfully at most once in a run |
| `AdminRuns.ExchangedTokenIsKnownIff` | scripts/operations/cleanup-admin-sessions.ts:83-146 | the row of an exchanged token is still there, unchanged, exactly as long as no clean-up deleted it for its own age or with its session |
| `AdminStore.ReplayIsAnsweredIff` | src/admin-auth/admin-auth.service.ts:202-231 | replaying a token exchanged earlier ends its session exactly in that case; afterwards it is refused and revokes nothing |
| `AdminStore.ReplayCanBeForgotten` | scripts/operations/cleanup-admin-sessions.ts:83-128 | a run in which a clean-up forgets the exchanged token of a session that is still live |
| `AdminRuns.ReplayRevocationIsFinal` | src/admin-auth/admin-auth.service.ts:1004-1023 | once a replay's revocation commits no token of that session is live or rotates again |
| `AdminRuns.RevocationIsPermanent` | src/admin-accounts/admin-accounts.service.ts:575-590 | across any stretch of a run, clean-ups included, nothing revoked comes back to life, rows that are left keep their owner, and a deleted row never returns |
| `AdminRuns.ChangeEndsEverySession` | src/admin-auth/admin-auth.service.ts:534-590 | a committed password change, reset, role change, disabling, deletion or revocation of all sessions ends every session the account had, for good, and none of their tokens rotates again |
| `AdminRuns.CommittedLoginSpansNoPasswordChange` | src/admin-auth/admin-auth.service.ts:773-840 | a login that commits shows that no password change or reset took effect since its password check was read |
| `AdminRuns.OldPasswordNeverSignsIn` | src/admin-auth/admin-auth.service.ts:534-590 | once a password change, reset or deletion of an account with a fresh hash commits, no login compared with the hash held before commits at any later moment; the new hash signs in at once after a change, after a reset exactly for an active account before its temporary password expires, after a deletion never |
| `AdminRuns.LoginCommitsIff` | src/admin-auth/admin-auth.service.ts:783-840 | a login commits exactly for a live account that holds the hash it was compared with and whose temporary password, if any, has not expired |
| `AdminRuns.RevokeIsExact` | src/admin-accounts/admin-accounts.service.ts:575-590 | a bulk revocation stamps exactly the unrevoked rows of that admin, and of that session if one is named, and leaves all others as they are |
| `AdminRuns.RowsAreDeletedIff` | scripts/operations/cleanup-admin-sessions.ts:83-146 | no step but a clean-up deletes a row, and a clean-up exactly those of its batch that expired or were revoked before the cutoff, and with a session its tokens |
| `AdminRuns.AtMostOneOwnerEver` | src/admin-auth/admin-auth.service.ts:692-725 | at most one account is ever OWNER, and it stays OWNER, ACTIVE and undeleted |
| `AdminStore.RefreshSucceedsIff` | src/admin-auth/admin-auth.service.ts:189-260 | a whole refresh succeeds exactly for an unrevoked, unexpired token that belongs to a session |
| `AdminStore.RefreshReplacesTheToken` | src/admin-auth/admin-auth.service.ts:260-347 | after a successful refresh the new token is the session's only live one, with the new expiry |
| `AdminStore.ReplayKillsTheSession` | src/admin-auth/admin-auth.service.ts:213-232 | replaying the replaced token is rejected and ends the session together with the token that replaced it |
| `AdminStore.AdminStore.CreateInitialOwner` | src/admin-auth/admin-auth.service.ts:692-725 | up to three attempts; the first that is not aborted creates the owner or refuses, and only if all abort nothing is decided |
| `AdminStore.AdminStore.Refresh` | src/admin-auth/admin-auth.service.ts:189-376 | the refresh call, read and transaction, as a function of the rows |
| `AdminStore.AdminStore.RotateToken` | src/admin-auth/admin-auth.service.ts:260-347 | the rotation transaction: a token still unrevoked and of that admin and session is claimed, and rotated exactly if admin and session are live; each outcome with the rows it leaves |
| `AdminStore.AdminStore.CreateLoginTokens` | src/admin-auth/admin-auth.service.ts:783-840 | the login transaction commits exactly if hash, status and temporary password pass its re-check, and leaves these rows; a refusal names which failed and writes nothing |
| `AdminStore.AdminStore.RevokeRows` | src/admin-accounts/admin-accounts.service.ts:575-590 | revokes exactly an admin's live tokens and sessions, one session's or all, row by row, and counts the sessions |
| `AdminStore.AdminStore.LoadMutableTarget` | src/admin-accounts/admin-accounts.service.ts:511-573 | the first refusal among owner re-check, target checks and version check |
| `AdminStore.AdminStore.ResetPassword` | src/admin-accounts/admin-accounts.service.ts:320-369 | exactly when a reset commits, and the row it leaves: the new hash, the temporary password and its expiry, everything else as it was, every other account unchanged; every session ended |
| `AdminStore.AdminStore.Delete` | src/admin-accounts/admin-accounts.service.ts:370-450 | exactly when a deletion commits, and the row it leaves: disabled, deleted, the new hash, no temporary password; every other account unchanged; every session ended |
| `AdminStore.AdminStore.ChangeOwnPassword` | src/admin-auth/admin-auth.service.ts:534-590 | exactly when a password change commits, and the row it leaves: the new hash and no temporary password, everything else as it was; every session ended |
| `AdminStore.AdminStore.ChangeRole` | src/admin-accounts/admin-accounts.service.ts:171-226 | exactly when a role change commits; the row differs in role and version, and every session ended |
| `AdminStore.AdminStore.ChangeStatus` | src/admin-accounts/admin-accounts.service.ts:228-283 | exactly when a status change commits; the row differs in status and version, and disabling ends every session |
| `CanonicalPolicy.WinnerIsNewest` | src/admin-websites/utils/canonical-adoption-policy.util.ts:241-257 | there is a winner exactly when there is history, and it is the newest candidate, ties broken by the greater id |
| `CanonicalPolicy.WinnerIgnoresRowOrder` | src/admin-websites/utils/canonical-adoption-policy.util.ts:126-154 | the order in which rows are returned decides neither the winner nor the blocker |
| `CanonicalPolicy.WinnerIgnoresStatus` | src/admin-websites/utils/canonical-adoption-policy.util.ts:20-38 | statuses decide neither the winner nor whether it can be pinned |
| `CanonicalPolicy.OrderedIsASort` | src/admin-websites/utils/canonical-adoption-policy.util.ts:144-154 | the candidates are sorted by the comparator, and are the same candidates |
| `CanonicalPolicy.BlockerIff` | src/admin-websites/utils/canonical-adoption-policy.util.ts:203-225 | which of the four reasons blocks a pin: no alias but whitespace, an expiry, a view limit, an anchor of another pair; an anchor of the pair itself does not |
| `CanonicalModel.WinnerInTheTable` | src/admin-websites/canonical-share-link.service.ts:846-886 | filtered to exact single-video links, the winner is the newest such link of the whole table |
| `CanonicalModel.CreatePinsTheNewestLink` | src/admin-websites/canonical-share-link.service.ts:481-560 | a committed create pins the newest exact link whatever its status, or mints if and only if there is none; the pinned link honours the contract; anything else writes nothing |
| `CanonicalModel.CreatePinsIff` | src/admin-websites/canonical-share-link.service.ts:420-560 | exactly when a create commits |
| `CanonicalModel.CreateRecords` | src/admin-websites/canonical-share-link.service.ts:420-600 | what a committed create records: the website's ACTIVE domain, a primary one first and then the oldest, its host, and the video's evidence; and the minted row, none of whose credentials another link had |
| `CanonicalModel.NoDomainIff` | src/admin-websites/canonical-share-link.service.ts:428-470 | there is no domain to record exactly if the website owns no ACTIVE one |
| `CanonicalModel.BackfillDoes` | src/admin-websites/canonical-share-link.service.ts:985-1066 | the backfill sets the transport alias of an ACTIVE link that has none, to a value no other link has, and touches nothing else; a taken value collides; any other link is left alone |
| `CanonicalModel.CompatibilityIff` | src/admin-websites/canonical-share-link.service.ts:1520-1570 | a transport alias is emitted exactly for a capable host, an ACTIVE link of this website with this one video and no options, and a stored value of 22 URL-safe Base64 characters |
| `CanonicalModel.ReusableIff` | src/admin-websites/canonical-share-link.service.ts:1152-1240 | an existing mapping may be handed out exactly if, on the rows, its link is ACTIVE and under contract, its domain stands, its video is shareable, and its evidence is complete and as recorded; else the first of these that fails names the error |
| `CanonicalModel.StatusNeverChoosesTheLink` | src/admin-websites/canonical-share-link.service.ts:846-886 | whatever statuses change before the pin, the same link is pinned or the same refusal given |
| `CanonicalModel.AdoptionIsReusableIff` | src/admin-websites/canonical-share-link.service.ts:660-775 | an uninterrupted operator adoption passes the whole reuse check exactly when the alias is not blank, and else fails it for its alias |
| `CanonicalModel.AdoptionErrorIff` | src/admin-websites/canonical-share-link.service.ts:660-715 | the first fault the operator's checks find in a link, and none exactly if it is ACTIVE, of this website, with this one video, an alias and no options |
| `CanonicalModel.BlankAliasCanBeAdopted` | src/admin-websites/canonical-share-link.service.ts:694-698 | a link whose alias is one space passes every operator check and is then refused for its alias |
| `CanonicalRuns.LateAdoptionIsUsableIff` | src/admin-websites/canonical-share-link.service.ts:735-780 | an operator's commit is answered CREATED whatever became of the link since its checks; a request accepts the link exactly if it is still ACTIVE |
| `CanonicalRuns.RevokedLinkCanBeAdopted` | src/admin-websites/canonical-share-link.service.ts:735-780 | a link revoked in between is pinned, answered CREATED and refused afterwards |
| `CanonicalRuns.StepKeepsInv` | src/admin-websites/canonical-share-link.service.ts:376-647 | every step of every call, and everything else that writes these rows, keeps rows and calls sound |
| `CanonicalRuns.MappingIsPermanent` | src/admin-websites/canonical-share-link.service.ts:1092-1098 | a mapping never changes its link, domain, host or evidence |
| `CanonicalRuns.AllCallsReturnOneLink` | src/admin-websites/canonical-share-link.service.ts:376-647 | all calls on a pair that return at all return the same link, whenever they run |
| `CanonicalRuns.AtMostOneCallCreates` | src/admin-websites/canonical-share-link.service.ts:604-647 | at most one call ever reports CREATED for a pair |
| `CanonicalRuns.TransportAliasIsWriteOnce` | src/admin-websites/canonical-share-link.service.ts:985-1066 | a link's transport alias goes from null to a value at most once |
| `CanonicalRuns.EmittedCompatibilityIsPersisted` | src/admin-websites/canonical-share-link.service.ts:1473-1560 | an emitted compatibility alias is well formed and equals the persisted value from then on |
| `CanonicalRuns.EmissionIsOfTheLoadedLink` | src/admin-websites/canonical-share-link.service.ts:1473-1570 | what a call answers as compatibility alias is that rule, applied to the mapping and to the link as the call last loaded it |
| `CanonicalRuns.CredentialsStayUnique` | prisma/schema.prisma:457-477 | in every run no two links share a token, an alias or a transport alias, however mints, backfills and other creations interleave |
| `CanonicalRuns.CreatedMappingsHonourTheContract` | src/admin-websites/canonical-share-link.service.ts:1262-1324 | a mapping committed by the request path keeps its website, its one video, an alias, no expiry and no view limit, and no call on its pair ever fails the contract check |
| `CanonicalRuns.FirstMappingPinsTheNewestLink` | src/admin-websites/canonical-share-link.service.ts:466-546 | the step that first maps a pair is a request's, which pins the newest exact link there is at that moment or a new one if there is none, or an operator's, which pins the exact link the operator named |
| `CanonicalRuns.ReusedLinksWereChecked` | src/admin-websites/canonical-share-link.service.ts:1152-1240 | in every run, what is handed out as REUSED was ACTIVE and under contract when loaded, and three steps of the call saw its domain standing, its video shareable, and its evidence complete and equal to the recorded fingerprint; a mere lookup saw complete evidence |
| `CanonicalRuns.CallsAreTraced` | src/admin-websites/canonical-share-link.service.ts:376-480 | in every run a call gets past the door only with its website ACTIVE, creates only after it found no mapping and had a pepper, and reuses a link only with a transport alias or after its backfill was tried to the end |
| `CanonicalRuns.AdoptionsWereChecked` | src/admin-websites/canonical-share-link.service.ts:660-775 | whatever an operator's transaction commits was checked by earlier steps of its call: the link ACTIVE and under contract, the video shareable, the domain and the evidence as recorded |
| `CanonicalRuns.GivingUpTakesFiveAttempts` | src/admin-websites/canonical-share-link.service.ts:396-647 | in every run a call makes at most five create attempts, and a request that gives up while nobody has mapped its pair has made all five |
| `CanonicalRuns.CallsTerminate` | src/admin-websites/canonical-share-link.service.ts:396-647 | each step of its own brings a call closer to its end, whatever happens in between |
| `CanonicalRuns.StepsAreBounded` | src/admin-websites/canonical-share-link.service.ts:396-647 | in every run at most 25 events are steps of one call before it has ended, however the others move |
| `CanonicalStore.CanonicalStore.FindExactSingleVideoCandidates` | src/admin-websites/canonical-share-link.service.ts:846-886 | the filter loop yields exactly the candidates with this one member |
| `CanonicalStore.CanonicalStore.AssertReusable` | src/admin-websites/canonical-share-link.service.ts:1152-1240 | the first reason an existing mapping may not be handed back, and none exactly if link, domain, video and evidence all stand, as the rows say |
| `CanonicalStore.CanonicalStore.CreateTransaction` | src/admin-websites/canonical-share-link.service.ts:427-601 | the serializable transaction, its roll-backs included |
| `CanonicalStore.CanonicalStore.EnsureTransportAlias` | src/admin-websites/canonical-share-link.service.ts:985-1066 | the bounded backfill loop and the authoritative re-read, as the uninterrupted run of the step machine |
| `CanonicalStore.CanonicalStore.RetryLoop` | src/admin-websites/canonical-share-link.service.ts:396-647 | the five-attempt loop, as the uninterrupted run of the step machine |
| `CanonicalStore.CanonicalStore.CreateOrGetCanonical` | src/admin-websites/canonical-share-link.service.ts:376-652 | the whole call, as the uninterrupted run of the step machine |
| `CanonicalStore.CanonicalStore.AdoptExistingShareLink` | src/admin-websites/canonical-share-link.service.ts:660-780 | operator adoption, as the uninterrupted run of the step machine |
| `CanonicalStore.UndisturbedAdoptionCommitsIff` | src/admin-websites/canonical-share-link.service.ts:660-780 | an adoption that nothing interrupts commits exactly if website, link, video, a domain and evidence are in order and neither pair nor link is mapped; it maps just that pair to just that link, and answers CREATED unless the alias is blank |
| `CanonicalStore.UndisturbedLookupAnswersIff` | src/admin-websites/canonical-share-link.service.ts:207-228 | a lookup that nothing interrupts answers exactly for a mapping with a usable alias and complete evidence, and never writes |
| `CanonicalAudit.AuditNamesTheSameWinner` | scripts/audit/canonical-share-link-audit-core.ts:131-150 | from one snapshot the audit and the transaction select the same winner with the same blocker |
| `CanonicalAudit.PredictionComesTrue` | scripts/audit/canonical-share-link-audit-core.ts:131-192 | what the audit announces, reuse, adopt, adopt then deny, refuse or mint, is what an undisturbed request does, with the announced link |
| `CanonicalAudit.AuditAgreesWithRuntime` | scripts/audit/canonical-share-link-audit-core.ts:280-315 | a mapping has a finding exactly when the runtime refuses its link; both name the same fault if and only if the link is ACTIVE or has no structural fault |
| `CanonicalAudit.AuditAndRuntimeCanDiffer` | scripts/audit/canonical-share-link-audit-core.ts:280-315 | a revoked link with an expiry, for which they differ |
| `CanonicalAudit.Summarize` | scripts/audit/canonical-share-link-audit-core.ts:194-212 | one counter per key met, each the number of its occurrences |
| `WatchModel.CacheIsTransparent` | src/public/public.service.ts:292-345 | with a faithful entry a request has the same answer and the same effect on the database as one that never looked at the cache, at the clock reading of the path that answers |
| `WatchModel.ColdWritesFaithfully` | src/public/public.service.ts:1309-1359 | the uncached path caches only what it would read again, and only unbudgeted links |
| `WatchModel.WarmAgreesWithCold` | src/public/public.service.ts:1215-1307 | however many views were counted since the entry was written, a cache hit answers as the uncached resolver does, with the same claim, and carries no media grant |
| `WatchModel.WarmServesIff` | src/public/public.service.ts:1215-1253 | with nothing but views counted since, the entry serves exactly until the link expires |
| `WatchModel.ColdShowsExactly` | src/public/public.service.ts:735-881 | a request that reaches an open link is answered NO_VIDEOS, at no cost, exactly if no member may be played; else it shows exactly the members that are assigned, READY and servable, in member order, signs exactly those whose current row allows it, and counts one view of this link and no other, or none for a resume |
| `WatchModel.ColdRefusesTheRest` | src/public/public.service.ts:606-760 | a request that does not get there is refused, and writes nothing |
| `WatchModel.WarmShowsExactly` | src/public/public.service.ts:1215-1307 | a cache hit shows exactly those members too, however many views were counted since |
| `WatchModel.ColdCachesIff` | src/public/public.service.ts:1309-1381 | an entry is left exactly for an unlimited link with more than the time to live left before it expires, of which some member may be played, and holds its policy and those members |
| `WatchModel.CacheAnswersIff` | src/public/public.service.ts:292-345 | the cache answers exactly a watch request with an entry that is open and whose link's row admits the view; every other request is resolved without it, an unusable entry being dropped |
| `WatchRuns.StepKeepsInv` | src/public/public.service.ts:1400-1446 | every step of every request keeps counters, claims, calls and cache entries sound |
| `WatchRuns.UndisturbedCallsResolve` | src/public/public.service.ts:292-345 | the step machine refines the whole request: without interruption at most eight steps end in the answer, rows and cache of the resolver |
| `WatchRuns.ViewBudgetHolds` | src/public/public.service.ts:1423-1446 | in every interleaving a link's counter is its start value plus the calls that claimed a view, never passes the limit, and bounds the valid responses |
| `WatchRuns.ResponsesHoldTheirClaim` | src/public/public.service.ts:764-881 | a valid response that is no resume holds one claim on its link, which found the row ACTIVE, in budget and, by the request's clock, unexpired; a resume or a refusal holds none |
| `WatchRuns.ResponsesShowExactly` | src/public/public.service.ts:735-881 | in every interleaving a valid response shows exactly the members that were assigned, READY and servable in the state its videos were read in, in member order, and signs exactly as the rows of its last step allow |
| `WatchRuns.ClaimIsTakenOnce` | src/public/public.service.ts:803-825 | a call takes at most one view in its life |
| `WatchRuns.OnlyUnbudgetedLinksAreCached` | src/public/public.service.ts:1361-1381 | no link with a view limit is ever in the cache |
| `WatchRuns.ClaimGoesByAnEarlierReading` | src/public/public.service.ts:735-810 | the clock reading a claim goes by was taken by an earlier step of its own call |
| `WatchRuns.ClaimIsTimelyIff` | src/public/public.service.ts:1423-1446 | a pending claim that commits within d of its reading never admits an expired link if and only if the link has more than d left at the reading, or no claim can succeed |
| `WatchRuns.TimelyClaimsAdmitUnexpiredLinks` | src/public/public.service.ts:1423-1446 | on a monotone clock an admitted link with more left than the call took is unexpired at the commit |
| `WatchRuns.ExpiredLinkCanBeClaimed` | src/public/public.service.ts:1423-1446 | a run from an empty set of calls in which a link that expires at 10, judged at 9, is claimed at 10 |
| `WatchService.PublicService.IncrementShareLinkView` | src/public/public.service.ts:1423-1446 | one conditional update: whether the row admits the view, and then one more view of that link and nothing else |
| `WatchService.PublicService.WritePublicWatchCache` | src/public/public.service.ts:1309-1359 | what is cached, and when nothing is |
| `WatchService.PublicService.ResolvePublicWatchUncached` | src/public/public.service.ts:606-881 | the uncached resolver as a function of rows and cache |
| `WatchService.PublicService.ResolvePublicWatch` | src/public/public.service.ts:292-345 | the resolver with its cache as a function of rows and cache, each path with its own clock reading |
| `ViewGrowth.LedgerIsConserved` | src/videos/video-view-growth.service.ts:51-187 | in every run, stale reads included, each bucket is the sum of its hour's events and within the cap, a counter is its baseline plus all growth, a viewer has one event per window, and each event lies in the window of windowMinutes minutes it names |
| `ViewGrowth.ViewIsRecordedIff` | src/videos/video-view-growth.service.ts:51-76 | in every run a view of a known video with growth enabled appends exactly one event if and only if no earlier event of that viewer and video was created in the same window of windowMinutes * 60 000 ms, and changes nothing otherwise |
| `ViewGrowth.SameWindowIff` | src/videos/video-view-growth.service.ts:255-258 | an event carries the window start of an instant exactly if both were in the same window of windowMinutes * 60 000 ms |
| `ViewGrowth.SpanIsCapped` | src/videos/video-view-growth.service.ts:134-157 | growth over any span is at most the cap times the clock hours it touches |
| `ViewGrowth.AppliedIncrementBounds` | src/videos/video-view-growth.service.ts:106-126 | an applied increment lies between min(randomMin, max) and max, and within the event, hour and ramp limits it was computed from |
| `ViewGrowth.IncrementIff` | src/videos/video-view-growth.service.ts:102-157 | which increments the draws give: with room, every one from the random minimum up to the least of the event's limit, what is left of the hour as read, and 10, 30 or 75 by the ramp, as long as it fits the hour's bucket; 0 exactly if that most no longer fits, or without room |
| `ViewGrowth.PickIncrement` | src/videos/video-view-growth.service.ts:301-315 | the pick lies between min(randomMin, max) and max, and is 0 without room |
| `ViewGrowth.RampRises` | src/videos/video-view-growth.service.ts:275-299 | the ramp rises with the time elapsed through 10, 30 and 75 to the maximum |
| `ViewGrowth.RecordIsRampedIff` | src/videos/video-view-growth.service.ts:96-157 | a transaction respects the ramp whatever it draws if and only if what its reads allow, cut to the room there really is, lies within the ramp there really is |
| `ViewGrowth.GrowthRampHolds` | src/videos/video-view-growth.service.ts:275-299 | in every run whose reads meet that condition n events within 5, 15 or 30 minutes add at most one full increment plus 10, 30 or 75 for each other event |
| `ViewGrowth.SerialRunsAreSafe` | src/videos/video-view-growth.service.ts:78-96 | current reads always meet it |
| `ViewGrowth.StaleReadsBreakTheRamp` | src/videos/video-view-growth.service.ts:78-96 | two transactions that both read no earlier growth add two full increments; the second misses the condition |
| `ViewGrowth.VideoViewGrowthService.FindLatest` | src/videos/video-view-growth.service.ts:78-94 | the time of the video's newest growing event |
| `ViewGrowth.VideoViewGrowthService.RecordPublicVideoView` | src/videos/video-view-growth.service.ts:51-187 | one recorded view as the ledger transaction, of which `ViewGrowth.ViewIsRecordedIff` says when it appends an event; the increment it reports is the counter's change |
| `MemoryCache.CacheRefinesUnboundedMap` | src/cache/memory-cache.service.ts:55-93 | after any operations a hit is what an unbounded TTL map answers, the size is within bounds, and a miss on a key that map still holds means that many other keys were touched since |
| `MemoryCache.EvictionIsLeastRecentlyUsed` | src/cache/memory-cache.service.ts:216-226 | a set evicts at most one key, only for a new one, and it is the key whose last hit or set is oldest |
| `MemoryCache.SetThenGet` | src/cache/memory-cache.service.ts:80-93 | a value just set is served until its time to live is over and no longer |
| `MemoryCache.RunKeepsInv` | src/cache/memory-cache.service.ts:55-131 | the order of the map is the order of last touch, after any operations |
| `MemoryCache.ResolveTtlMs` | src/cache/memory-cache.service.ts:228-238 | a time to live of 1 to 3600 seconds is taken as asked for, one outside gives the nearer bound, none the default |
| `MemoryCache.ResolveConfig` | src/cache/memory-cache.service.ts:249-264 | the size bound and the default time to live are those asked for, or the nearer limit, or the default |
| `MemoryCache.MemoryCacheService.GetEntry` | src/cache/memory-cache.service.ts:55-78 | the read: the value exactly if the entry has not expired, which then moves to the end; an expired one goes; and the counters |
| `MemoryCache.MemoryCacheService.SetEntry` | src/cache/memory-cache.service.ts:80-93 | the write: the entry last in order, with the time to live asked for, and at most one eviction |
| `MemoryCache.MemoryCacheService.EvictOverflow` | src/cache/memory-cache.service.ts:216-226 | the eviction loop drops the first key, once |
| `MemoryCache.MemoryCacheService.DeleteByPrefix` | src/cache/memory-cache.service.ts:104-124 | exactly the keys with the prefix go, of entries and of loads in flight, the others keep their order, and the count is that of both |
| `MemoryCache.MemoryCacheService.DeleteEntry` | src/cache/memory-cache.service.ts:95-102 | a key goes from both maps, and each removal counts |
| `SingleFlight.StepKeepsInv` | src/cache/memory-cache.service.ts:133-171 | every piece of every call keeps loads, in-flight entries, cached values and results sound |
| `SingleFlight.NoSecondLoader` | src/cache/memory-cache.service.ts:146-161 | when a loader starts, every other load of its key is settled, was dropped by an invalidation or can no longer be joined; when one must start is `SingleFlight.BeginDoes` |
| `SingleFlight.BeginDoes` | src/cache/memory-cache.service.ts:133-161 | every call is served from the cache exactly if its key's entry has not expired; else it awaits the load registered under its dedupe key exactly if that one's in-flight expiry lies ahead; else it starts a load and registers it there |
| `SingleFlight.SettlingDoes` | src/cache/memory-cache.service.ts:153-203 | a load that resolves is cached under its own key for its time to live, one that fails is not; those who await it get just that outcome; a set and an invalidation change the maps at their keys only |
| `SingleFlight.CallersGetALoadOfTheirKey` | src/cache/memory-cache.service.ts:141-171 | every caller gets a cached value of its key or the outcome of a load of its dedupe key |
| `SingleFlight.StalenessIsBounded` | src/cache/memory-cache.service.ts:80-93 | a value served from the cache was written less than one time to live before, by a load of that key or a plain set |
| `SingleFlight.OnlyOwnEntryIsRemoved` | src/cache/memory-cache.service.ts:163-170 | a finishing loader removes its own in-flight entry and never a successor's |
| `SingleFlight.InvalidationForgetsSettledLoads` | src/cache/memory-cache.service.ts:104-124 | after an invalidation a loaded value comes from a later load or from one in flight at that moment |
| `SingleFlight.NoStaleWriteWithoutInflight` | src/cache/memory-cache.service.ts:104-124 | without a load in flight every later loaded value is newer than the invalidation |
| `SingleFlight.StaleWriteIff` | src/cache/memory-cache.service.ts:104-171 | after an invalidation some continuation of the run ends with a value that an older load wrote exactly if a load of the key is in flight when it runs |
| `SingleFlight.InflightLoadSurvivesInvalidation` | src/cache/memory-cache.service.ts:153-156 | a load in flight during an invalidation still writes its value |
| `SingleFlight.StaleWriteHappens` | src/cache/memory-cache.service.ts:146-161 | a run of four events in which it does |
| `ShareLinkSweep.RestorableIff` | scripts/operations/reconcile-share-links.ts:490-525 | a link is restorable exactly if its membership is intact and every member servable; expiry and budget tell the three kinds apart |
| `ShareLinkSweep.MembershipFaultIs` | scripts/operations/reconcile-share-links.ts:421-488 | which of the six membership faults is found: no members, one that does not resolve, a gap in the numbers, no record, fewer than recorded, or a record that does not fit |
| `ShareLinkSweep.MembershipFaultsComeFirst` | scripts/operations/reconcile-share-links.ts:451-500 | a membership fault is reported before any of a video |
| `ShareLinkSweep.VideoFaultsComeInOrder` | scripts/operations/reconcile-share-links.ts:490-525 | of an intact link, the first of not READY, not playable, missing at Bunny and not assigned that some member has is reported |
| `ShareLinkSweep.ContiguousIff` | scripts/operations/reconcile-share-links.ts:470-475 | the two tests on sortOrders accept exactly the numbers 0 to m-1 |
| `ShareLinkSweep.PurgeDetectionIsExact` | scripts/operations/reconcile-share-links.ts:421-488 | with a truthful recorded count the checks pass exactly if no member was purged; a gap, a shrinkage or an empty link is reported exactly when the survivors are so |
| `ShareLinkSweep.PurgeHistoryIsDetected` | scripts/operations/reconcile-share-links.ts:43-64 | the same over every history of purges of a link created with sortOrder 0 to n-1 |
| `ShareLinkSweep.TallyIsConserved` | scripts/operations/reconcile-share-links.ts:656-697 | every link examined is counted once, and the provenance verdicts leave out only links without members or with missing ones |
| `ShareLinkSweep.CountersAreExact` | scripts/operations/reconcile-share-links.ts:656-731 | each counter is the number of verdicts it names |
| `ShareLinkSweep.SweepVisitsEachOnce` | scripts/operations/reconcile-share-links.ts:621-652 | paging visits each DISABLED link at most once, in order, and every one unless truncated |
| `ShareLinkSweep.SweepReport` | scripts/operations/reconcile-share-links.ts:610-733 | the report adds up; a dry run writes nothing and lists exactly what an apply flips; an apply flips just that |
| `ShareLinkSweep.SecondApplyFlipsNothingIff` | scripts/operations/reconcile-share-links.ts:717-731 | a repeated apply flips nothing exactly if no link just beyond the first run's reach is usable |
| `ShareLinkSweep.SecondApplyCanFlip` | scripts/operations/reconcile-share-links.ts:619-652 | two usable links and room for one: each of two runs flips one |
| `ShareLinkSweep.UntruncatedApplyIsIdempotent` | scripts/operations/reconcile-share-links.ts:717-731 | an apply that reached every DISABLED link, repeated at the same time, flips nothing |
| `ShareLinkSweep.ReconcileShareLinks.ResolveProvenance` | scripts/operations/reconcile-share-links.ts:355-408 | canonical anchors first, then the earliest creation record, else missing |
| `ShareLinkSweep.ReconcileShareLinks.Reconcile` | scripts/operations/reconcile-share-links.ts:619-733 | the paging loop over the table it changes visits what the rows at its start say |
| `SweepContention.ContendedSweepReport` | scripts/operations/reconcile-share-links.ts:619-733 | whatever others write during an apply, each link has its turn at most once, the report lists exactly the rows the sweep changed, each once, and its counters add up |
| `SweepContention.ListedIff` | scripts/operations/reconcile-share-links.ts:717-731 | a link is listed exactly if some turn found it DISABLED and left it ACTIVE |
| `SweepContention.TurnRestoresIff` | scripts/operations/reconcile-share-links.ts:700-731 | a link's turn restores it exactly if it was found usable and its row is still DISABLED, and touches no other row |
| `SweepContention.OnlyDisabledRowsAreTouched` | scripts/operations/reconcile-share-links.ts:717-731 | the sweep touches a row only to make a DISABLED link ACTIVE |
| `SweepContention.RevokedStaysRevoked` | scripts/operations/reconcile-share-links.ts:717-731 | a link revoked at any moment, even after the sweep read it, stays revoked unless somebody else lifts that |
| `SweepContention.FlipGoesByItsReads` | scripts/operations/reconcile-share-links.ts:640-731 | in every run, what is restored was found DISABLED by an earlier page and judged usable by that page's row with the provenance of a later lookup |
| `SweepContention.QuietFlipIsUsable` | scripts/operations/reconcile-share-links.ts:640-731 | it is usable when restored if nobody has touched its row since the page, nor its provenance since the lookup, but for the status |
| `SweepContention.RestoredIsUsableIff` | scripts/operations/reconcile-share-links.ts:640-731 | a link found usable and next in turn is usable if restored, after any writes by others that touch a given set of facts, if and only if the set is empty and the verdict is still true, or the link is gone |
| `SweepContention.UndisturbedVerdictIsSafeIff` | scripts/operations/reconcile-share-links.ts:640-731 | for a verdict nobody has disturbed so far: if and only if others may touch none of membership, videos, expiry, budget and provenance before its turn |
| `SweepContention.StaleVerdictRestores` | scripts/operations/reconcile-share-links.ts:680-731 | a link restored although its video is no longer READY |
| `BunnyAsset.ApplyThenClearIff` | src/bunny/bunny-video-asset.util.ts:236-288 | applying and clearing the marker restores the metadata exactly if they are a record without the marker key |
| `BunnyAsset.ApplyThenClearCanDiffer` | src/bunny/bunny-video-asset.util.ts:236-288 | metadata that are no record, and a marker key that was there before |
| `BunnyAsset.UnmarkedBunnyRoundTrip` | src/bunny/bunny-video-asset.util.ts:236-288 | an unmarked Bunny record survives a 404 and its recovery unchanged, and in between holds the detection time and the reason |
| `BunnyAsset.MarkerKeepsTheRest` | src/bunny/bunny-video-asset.util.ts:220-235 | neither operation touches any other key |
| `BunnyAsset.MarkerOperationsSettle` | src/bunny/bunny-video-asset.util.ts:236-288 | both are idempotent, report a change exactly when there is one, and preserve the classification |
| `BunnyAsset.StatusRules` | src/bunny/bunny-video-asset.util.ts:304-346 | DISABLED always stands, READY falls to a 404 only, every other status follows the answer, and repeating an answer changes nothing |
| `BunnyAsset.ClassifyIff` | src/bunny/bunny-video-asset.util.ts:60-99 | a video is a Bunny embed exactly if asset id, playback id and metadata name the same video, up to whitespace; any other that claims to be one is malformed |
| `BunnySweep.PredictionIsExact` | scripts/operations/reconcile-bunny-videos.ts:404-427 | the test a dry run makes is exactly whether an apply writes the row |
| `BunnySweep.AnswerSettles` | scripts/operations/reconcile-bunny-videos.ts:177-277 | once an answer has been applied the same answer changes nothing more |
| `BunnySweep.OnlyAnAnswerMarks` | scripts/operations/reconcile-bunny-videos.ts:186-212 | a row becomes remote-missing on an authoritative 404 only, and recovers only when Bunny has the video again |
| `BunnySweep.LateOutcomeKeepsDisabledIff` | scripts/operations/reconcile-bunny-videos.ts:222-277 | a video disabled between the sweep's read and its update by id stays DISABLED exactly if the answer leaves the status that was read |
| `BunnySweep.DisabledAlwaysSurvivesIff` | scripts/operations/reconcile-bunny-videos.ts:222-277 | it stays so whatever Bunny answers exactly if it was DISABLED when read or is no Bunny video |
| `BunnySweep.DisabledCanBeOverwritten` | scripts/operations/reconcile-bunny-videos.ts:222-277 | a READY video, disabled while Bunny answers 404, ends FAILED |
| `BunnySweep.SweepIsConserved` | scripts/operations/reconcile-bunny-videos.ts:379-427 | every video visited is counted once, by outcome |
| `BunnySweep.CountersAreExact` | scripts/operations/reconcile-bunny-videos.ts:379-427 | each counter is the number of rows, as they were at the start, that got the answer it names |
| `BunnySweep.UpdatedCountsChanges` | scripts/operations/reconcile-bunny-videos.ts:404-427 | `updated` is the number of rows that an apply leaves different |
| `BunnySweep.SecondApplyUpdatesNothing` | scripts/operations/reconcile-bunny-videos.ts:336-431 | a dry run reports what an apply does, and a second apply with the same answers updates no row, however far the batches reach |
| `BunnySweep.ReconcileBunnyVideos.Reconcile` | scripts/operations/reconcile-bunny-videos.ts:336-431 | the paging loop visits the candidates there were at its start, in order |
| `WorkerPool.AtMostLimitInFlight` | scripts/operations/reconcile-bunny-videos.ts:310-334 | under every schedule no index is handed out twice and at most `limit` are in flight |
| `WorkerPool.FinishedPoolMapsItems` | scripts/operations/reconcile-bunny-videos.ts:310-334 | when the runners have stopped each index was processed once and each result is the worker's answer for its item, exactly if the limit is positive or there is nothing to do |
| `WorkerPool.PoolTerminates` | scripts/operations/reconcile-bunny-videos.ts:318-329 | every step of a runner that has not stopped brings the pool exactly one step closer to its end |
| `WorkerPool.StepsAreExact` | scripts/operations/reconcile-bunny-videos.ts:318-329 | in every run whose steps are those of unstopped runners the pool makes exactly two steps per item and one per runner, and has finished exactly when it has made them |
| `WebsiteAssignments.NormalizedIdsAreDistinct` | src/admin-websites/admin-websites.service.ts:3040-3046 | ids are trimmed, without blanks, each once |
| `WebsiteAssignments.IdsKeepTheirOrder` | src/admin-websites/admin-websites.service.ts:3040-3046 | they come in the order of their first mention |
| `WebsiteAssignments.BatchUpdatesTheActiveSet` | src/admin-websites/admin-websites.service.ts:1606-1661 | an accepted batch leaves (old active or assigned) and not unassigned, keeps the other rows and the order and uniqueness of all |
| `WebsiteAssignments.NewRowsAreNumbered` | src/admin-websites/admin-websites.service.ts:1606-1640 | rows that an assignment creates are numbered one after another from the next sortOrder on, in the order of the ids |
| `WebsiteAssignments.ListsPartition` | src/admin-websites/admin-websites.service.ts:1603-1656 | the reported lists partition the ids asked for into assigned, unassigned and unchanged |
| `WebsiteAssignments.BatchCanBeUndone` | src/admin-websites/admin-websites.service.ts:1606-1656 | the opposite batch restores the active set |
| `WebsiteAssignments.RowsStaySound` | src/admin-websites/admin-websites.service.ts:1469-1483 | across all assignment operations sortOrder is unique and at most one row is featured, an ACTIVE one |
| `WebsiteAssignments.WebsiteAssignmentService.NextSortOrder` | src/admin-websites/admin-websites.service.ts:1592-1602 | one more than the greatest sortOrder, or 0 |
| `WebsiteAssignments.WebsiteAssignmentService.UpdateVideoAssignments` | src/admin-websites/admin-websites.service.ts:1512-1694 | exactly when a batch is accepted; a refusal writes nothing, an accepted one is the two loops, with its partition and its total |
| `WebsiteAssignments.WebsiteAssignmentService.AssignVideos` | src/admin-websites/admin-websites.service.ts:1440-1483 | exactly when a replacement is accepted; position for position, all ACTIVE, the requested one featured |
| `WebsiteAssignments.WebsiteAssignmentService.AssignSingleVideo` | src/admin-websites/admin-websites.service.ts:1716-1795 | exactly when one video is accepted; its row is re-activated where it stands or appended, and no other changes |
| `DomainPool.PoolStaysSound` | src/admin-websites/admin-websites.service.ts:922-1217 | with operations taken one after the other a website owns at most one domain, owned domains are ACTIVE, primary ones owned, and hosts unique |
| `DomainPool.AssignmentIsExclusive` | src/admin-websites/admin-websites.service.ts:2351-2461 | exactly when an assignment is accepted; then the domain is the website's only and primary one, and no other website loses any |
| `DomainPool.UpdateChangesWhatWasAsked` | src/admin-websites/admin-websites.service.ts:972-1040 | taken in one piece, an owned domain is updated field by field as asked, is never disabled, and an anchored host is not renamed |
| `DomainPool.UpdateDoes` | src/admin-websites/admin-websites.service.ts:972-1040 | the same for any pool, sound or not: exactly when it is accepted, the row it leaves, and that a domain made primary leaves the website no other primary one |
| `DomainPool.UnassignUndoesAssign` | src/admin-websites/admin-websites.service.ts:644-687 | unassigning gives back the pool before the assignment |
| `DomainPool.AnchoredDomainStaysIff` | src/admin-websites/admin-websites.service.ts:2429-2438 | over every operation an anchored domain stays with its website exactly if the operation does not replace it, and keeps its host in any case |
| `DomainPool.AnchoredDomainStaysThroughoutIff` | src/admin-websites/admin-websites.service.ts:2429-2438 | the same over every run |
| `DomainPool.ReplaceIgnoresAnchors` | src/admin-websites/admin-websites.service.ts:2429-2438 | an instance: replacing detaches an anchored domain that unassigning refuses to release |
| `DomainPool.LateInsertKeepsOwnershipIff` | src/admin-websites/admin-websites.service.ts:928-957 | a write after an outdated count keeps one domain per website exactly if there still is none |
| `DomainPool.ConcurrentCreationsShareAWebsite` | src/admin-websites/admin-websites.service.ts:928-957 | two creations that both counted first leave two domains |
| `DomainPool.LateUpdateKeepsSoundIff` | src/admin-websites/admin-websites.service.ts:978-1103 | the write of an update or an activation, of an owned or a standalone domain, after outdated checks keeps the pool sound exactly if it makes primary none but an owned domain and disables none but an unowned one |
| `DomainPool.LateDisableKeepsSoundIff` | src/admin-websites/admin-websites.service.ts:552-570 | a disabling that writes after an outdated check keeps the pool sound exactly if the domain is still unowned; a release does so at any time |
| `DomainPool.LateAssignKeepsSoundIff` | src/admin-websites/admin-websites.service.ts:2351-2461 | each of the three writes of an assignment, after outdated checks, keeps the pool sound exactly if: the domain is still ACTIVE and the website has no other; it is still ACTIVE, when replacing; it is still owned, when it is the website's own |
| `DomainPool.LateAssignTakesDomainIff` | src/admin-websites/admin-websites.service.ts:2351-2461 | such a write costs another website its domain exactly if it was that website's by then |
| `DomainPool.LateWriteKeepsAnchorsIff` | src/admin-websites/admin-websites.service.ts:974-1027 | an update or a release that writes after an outdated anchor count keeps every anchored domain's host and owner exactly if the domain is still unanchored or neither changes |
| `DomainPool.LateAssignKeepsAnchorsIff` | src/admin-websites/admin-websites.service.ts:2351-2461 | the same for the writes of an assignment |
| `DomainPool.LateDisableBreaksThePool` | src/admin-websites/admin-websites.service.ts:552-570 | an instance: disabled after it was assigned |
| `DomainPool.LateUpdateBreaksThePool` | src/admin-websites/admin-websites.service.ts:978-1103 | an instance: made primary, by an update or an activation, after it was released |
| `DomainPool.LateAssignBreaksThePool` | src/admin-websites/admin-websites.service.ts:2351-2461 | an instance: assigned after another was |
| `DomainPool.LateUpdateBreaksAnchors` | src/admin-websites/admin-websites.service.ts:974-1027 | an instance: renamed, or released, after it was anchored |
| `DomainPool.DomainService.CreateForWebsite` | src/admin-websites/admin-websites.service.ts:922-957 | creation for a website, taken in one piece: exactly when it is accepted, and the row it adds |
| `DomainPool.DomainService.AssignDomainToWebsiteRecord` | src/admin-websites/admin-websites.service.ts:2351-2450 | assignment, taken in one piece: exactly when it is accepted, and that the website's other domains are released |
| `DomainPool.DomainService.UpdateOwned` | src/admin-websites/admin-websites.service.ts:972-1040 | the update of an owned domain, taken in one piece, with the rows it leaves |
| `DomainPool.DomainService.Activate` | src/admin-websites/admin-websites.service.ts:1061-1103 | activation of an owned domain, taken in one piece: exactly when it is accepted, and the rows it leaves |
| `DomainPool.DomainService.ClaimCurrentDomain` | src/admin-websites/admin-websites.service.ts:1118-1200 | a claim by host, which creates the domain if the pool has none, taken in one piece: exactly when it is accepted, and the one row it leaves different |
| `DomainPool.DomainService.UpdateStandaloneDomain` | src/admin-websites/admin-websites.service.ts:472-535 | the update of a domain outside a website, taken in one piece: exactly when it is accepted, and the row it leaves |
| `DomainPool.DomainService.UnassignDomain` | src/admin-websites/admin-websites.service.ts:644-687 | unassignment, taken in one piece: exactly when it is accepted, and the row it leaves |
| `ByteRanges.MatchIff` | src/public/public.service.ts:2559-2563 | the match is the pattern "bytes=", digits, "-", digits, with these two groups |
| `ByteRanges.AcceptedRangesLieWithin` | src/public/public.service.ts:2595-2606 | an accepted range lies within the stored bytes |
| `ByteRanges.AcceptedIff` | src/public/public.service.ts:2550-2606 | which headers are accepted and as what |
| `ByteRanges.RefusedIff` | src/public/public.service.ts:2550-2606 | every other header is 416, except that a missing or blank one asks for the whole file |
| `ByteRanges.RangeRoundTrip` | src/public/public.service.ts:2550-2606 | printing a range inside the bytes and parsing it gives it back |
| `ByteRanges.OpenRange` | src/public/public.service.ts:2589-2592 | "bytes=a-" means from a to the end |
| `ByteRanges.SuffixRange` | src/public/public.service.ts:2579-2588 | "bytes=-n" means the last n bytes, or all of them |
| `ByteRanges.TilesReassemble` | src/public/public.service.ts:1191-1210 | the bodies of consecutive ranges that tile the file join to its bytes |
| `ByteRanges.ParsersAgree` | src/videos/videos.controller.ts:163-237 | the two parsers give the same status, range and body for every header and positive size |
| `ByteRanges.ParseRangeHeader` | src/public/public.service.ts:2542-2607 | the public parser |
| `ByteRanges.StreamDatabaseVideoBinary` | src/videos/videos.controller.ts:163-237 | the controller's copy, writing the response step by step |
| `JsText.BlankIff` | src/admin-websites/utils/canonical-adoption-policy.util.ts:207-209 | a string trims to nothing exactly if it holds only whitespace |
| `JsText.TrimIff` | src/admin-websites/utils/canonical-adoption-policy.util.ts:207-209 | trimming gives the one text without whitespace at its ends that the string pads with whitespace |

## Left out

Across the project

- HTTP controllers, DTO validation, throttling, headers, logging and best-effort audit writes: plumbing. The
  creation counts that serve as provenance are kept.
- Hashing, signing and random generation: a hash, token or identifier is a fresh value that the caller
  passes in, and a lookup by token hash is a lookup by token.
- Transaction isolation: a transaction is one atomic step, an aborted attempt writes nothing, and unique
  keys hold. A database error other than a unique violation appears only as an aborted attempt.

Accounts and sessions

- The serializable retry loops around account mutations and login: an aborted attempt has no effect, so they
  add no state. The bounded retries of `createInitialOwner` are modelled.
- The access guard's touch of `lastUsedAt` and session lists. Logout and revoking one's own session are the
  events that revoke one session.
- Which ids a clean-up puts in a batch, its counts and its dry run: a batch is any set of ids, and what in it
  is still eligible is deleted.

Canonical links

- Building and normalising hosts and URLs, and the options `createShareLinkForRequest` refuses before it
  reaches the canonical call.
- The `evidenceDrift` flag of a lookup's response; that a drifted video is answered all the same is kept.
- The audit's printed labels and file output; only the decision, the winner and the fault are kept.
- Website deletion: mappings restrict it.

Public watch

- Host and token normalisation, grant signatures and thumbnails; a verified resume is a fact of the request.

Cache and loads

- The switch `enabled: false`, under which every operation does nothing, and `getStats`.
- A loader's `null`, which is stored but never served from the cache.

View growth

- How a viewer's hash is derived from an address and user agent.

Sweeps

- Argument parsing, the confirmation an apply demands of its environment, and printing of reports.
- Bunny's HTTP client: an answer is available, missing or failed. A worker of `mapWithConcurrency` that
  rejects is not modelled, since `classifyVideo` catches every failure.

Websites and domains

- Domain groups, localhost rules and host parsing; `createShareLink`'s building of an ordinary link, which is an
  event of other requests in `CanonicalRuns` and `WatchRuns`.
- List and detail endpoints, and the website and video reads that only feed a response.

Byte ranges

- HEAD requests, local-file streaming and MIME types. Section 14.2 of RFC 9110 lets a server ignore an
  invalid Range; the code answers 416, and no conformance beyond the syntax of section 14.1.2 is claimed.
