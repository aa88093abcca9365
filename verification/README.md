# CloudOps control plane: a verified model

CloudOps is a multi-tenant control plane for AWS accounts. Its difficulty lies in a few small stateful
services: invitations mailed while no lock is held, findings reconciled by repeated evaluations, chained refresh
tokens, connection validations that race with account changes, quotas, and a drift-checked change to a customer's
AWS account. This project models those services in Dafny and proves what they are meant to guarantee.

## How the model is built

A database transaction is one atomic step. Where the code commits before it calls a provider, AWS or SMTP, the step is
split there, and everybody else may act in between; what comes back is arbitrary. Each stateful service has

- a `State` value and a step function `Apply` with the code's branches, refusals and constants,
- an invariant `Inv`, kept by every legal step, and theorems over every run of steps,
- classes whose fields are updated in place, as in the code, each method proved equal to its step,
- lemmas named `...Answer`, `...Iff` or `...Meaning` that read the outcome of each step off the stored rows and constants
  alone, in both directions, and fix every field it writes.

Pure code is modelled by functions. Loops of the code are loops of methods, proved against a function or a
statement about sets. Where a guarantee turned out not to hold in full, there is a concrete history that breaks it and a
lemma that says exactly when it does hold.

| file | part of the system |
|---|---|
| Organizations.dfy | memberships, roles and last-owner protection |
| Invitations.dfy | invitation delivery: snapshot, slow send, guarded result; resend, accept, cancel |
| Results.dfy, Findings.dfy | evidence sanitising; what one rule result does to one finding |
| Evaluations.dfy, EvaluationService.dfy, EvaluationJobs.dfy | the rules-by-assets loop, its counters and status; the loop over stored rows; histories of jobs and suppressions |
| Sessions.dfy, Slugs.dfy | refresh-token families; the search for a free organization slug |
| Discovery.dfy | inventory reconciliation, collector by collector |
| RateLimit.dfy | the sliding-window limiter against the full history |
| Risk.dfy | score aggregation |
| Onboarding.dfy, OnboardingService.dfy | AWS connection validation and external ids; the account rows |
| Text.dfy, EnvFile.dfy | str.strip and decimal numerals; the printer and parser of the self-host configuration file |
| AiRequests.dfy | AI request idempotency, hourly quota, retry and terminal states |
| Remediation.dfy | the two approved AWS changes |
| Compliance.dfy | control status and the counting loop of an assessment |
| Prelude.dfy | optional values, two facts about sets |

## What was found on the way

The code is modelled as it is. Some of its guarantees need a condition, and the model gives it exactly.

- `_protect_last_owner` guards SUSPENDED, not REMOVED, in `change_status`, so a sole owner could remove itself; the request
  schema is what keeps REMOVED out
  (`Organizations.StepKeepsOwnersIff`, `Organizations.StatusRemovedDropsOwner`).
- The same guard also refuses changes to a suspended owner while one active owner remains, where nothing would be lost
  (`Organizations.LastOwnerRefusalNeededIff`, `Organizations.SuspendedOwnerIsRefused`).
- The expiry branch of `resend` does not raise the delivery generation, unlike the one of `accept`, so a send in flight can
  still mark the expired invitation delivered (`Invitations.ExitClosesIff`, `Invitations.ResendExpiryIsOverwritten`).
- The re-read after an insert collision skips the sequence guard. Only the one-running-job rule makes that harmless
  (`Findings.CollisionIsGuardedIff`, `EvaluationJobs.CollisionIsGuarded`); with two running jobs, a state written down by hand
  because no history reaches it, a sequence would fall (`EvaluationJobs.TwoJobsLowerSequence`).
- `disconnect_account` returns early for a disconnected account without superseding a running validation, which can then
  connect it (`Onboarding.DisconnectStopsAnswerIff`, `Onboarding.LateAnswerReconnects`).
- `write_env` does not quote, so values with outer white space, line breaks, NUL or a matching pair of quotes do not come
  back as written (`EnvFile.RoundTripIff`, `EnvFile.QuotesAreLost`).
- The retry delay of the AI quota is cut to whole seconds and can end just before the next hour starts
  (`AiRequests.RetryReachesNextHourIff`, `AiRequests.RetryCanFallShort`).

## Model

| member | source | states |
|---|---|---|
| Organizations.StepKeepsOwnersIff | apps/api/app/services/organizations.py:114-207 | One step of creation, role change, status change, removal, invitation or joining keeps an ACTIVE OWNER in every organization if and only if it is not the sole active owner setting its own membership to REMOVED |
| Organizations.StatusRemovedDropsOwner | apps/api/app/services/organizations.py:160-168 | A concrete two-step history in which the service method, called with REMOVED, leaves an organization without an owner |
| Organizations.LastOwnerRefusalNeededIff | apps/api/app/services/organizations.py:133-134 | A last-owner refusal is needed, because the change would leave no active owner, if and only if the target is an active owner; the code refuses for a suspended owner as well |
| Organizations.SuspendedOwnerIsRefused | apps/api/app/services/organizations.py:181-207 | A concrete history in which removing a suspended owner is refused although the active owner would remain |
| Organizations.ChangesNeedAuthority | apps/api/app/services/organizations.py:114-201 | An existing membership is changed only by an active OWNER, by an active ADMIN when neither old nor new role is OWNER, or by its own user joining again after removal |
| Organizations.RunKeepsOwners | apps/api/app/services/organizations.py:41-207 | Over every history whose status changes are ACTIVE or SUSPENDED, as the request schema has it, every organization has an ACTIVE OWNER at every point |
| Organizations.OwnerProvenance | apps/api/app/services/organizations.py:41-144 | Every OWNER role held at any point of any history goes back to creating the organization, or to an actor who was an active OWNER when granting it or inviting, and was held ever since |
| Organizations.ChangeRoleAnswer | apps/api/app/services/organizations.py:114-144 | A role change succeeds if and only if the actor is an active member allowed to manage the target and to grant the role, and no last-owner rule applies; then exactly the requested role is stored, else nothing |
| Organizations.ChangeStatusAnswer | apps/api/app/services/organizations.py:146-179 | When a status change succeeds, and that exactly the requested status is stored |
| Organizations.RemoveAnswer | apps/api/app/services/organizations.py:181-201 | When a removal succeeds and when it silently does nothing; it stores REMOVED and no more |
| Organizations.InviteAnswer | apps/api/app/services/invitations.py:272-275 | An offer is made if and only if the actor is an active owner or admin, and an owner if OWNER is offered |
| Organizations.JoinAnswer | apps/api/app/services/invitations.py:417-436 | Joining succeeds if and only if there is no membership or a removed one, and stores the offered role as ACTIVE |
| Organizations.OrganizationService.Create | apps/api/app/services/organizations.py:41-75 | An empty or stored slug is refused and changes nothing; otherwise the stored rows are those of the creation step |
| Organizations.OrganizationService.ChangeRole | apps/api/app/services/organizations.py:114-144 | Same branches, refusals and rows as the role-change step, last-owner protection included; no other row is touched |
| Organizations.OrganizationService.ChangeStatus | apps/api/app/services/organizations.py:146-179 | Same branches, refusals and rows as the status-change step; protection applies to SUSPENDED only, as in the code |
| Organizations.OrganizationService.Remove | apps/api/app/services/organizations.py:181-201 | Same branches, refusals and rows as the removal step |
| Organizations.OrganizationService.Invite | apps/api/app/services/invitations.py:272-275 | Only an active member with the capability may invite, and only to a role the actor may assign |
| Organizations.OrganizationService.Join | apps/api/app/services/invitations.py:417-436 | A removed membership is revived with the offered role, a missing one inserted, any other refused |
| Invitations.InvStep | apps/api/app/services/invitations.py:186-487 | Every step of creating, resending, recording a result, accepting, cancelling or erasing keeps the delivery invariant, whatever the interleaving |
| Invitations.GenerationSentOnce | apps/api/app/services/invitations.py:173-184 | In every reachable state each generation of an invitation was snapshotted by at most one send |
| Invitations.RecordNeedsCurrentToken | apps/api/app/services/invitations.py:199-234 | A result changes a row only if the row stores the hash of the token this send mailed, the send is the newest and the row is waiting for it |
| Invitations.DeliveredHoldsLastToken | apps/api/app/services/invitations.py:186-264 | A PENDING invitation marked delivered holds the token of its newest send, and that send succeeded |
| Invitations.AcceptNeedsNewestToken | apps/api/app/services/invitations.py:395-455 | Only the newest token of a PENDING invitation can change the invitation by being accepted |
| Invitations.ClosedForever | apps/api/app/services/invitations.py:207-234 | Once an invitation has left PENDING and no send in flight carries its generation, its row never changes again in any future |
| Invitations.UntouchableIffClosed | apps/api/app/services/invitations.py:207-234 | For an invitation outside PENDING: every future leaves its row alone if and only if no send in flight carries its generation |
| Invitations.ExitClosesIff | apps/api/app/services/invitations.py:346-349 | A step out of PENDING closes the invitation if and only if it is not a resend that found it expired while its newest send was in flight |
| Invitations.ExpiredIsOverwritten | apps/api/app/services/invitations.py:346-349 | From any state where a resend finds the invitation expired with its newest send in flight, a success of that send still marks the expired row delivered |
| Invitations.ResendExpiryIsOverwritten | apps/api/app/services/invitations.py:346-349 | A concrete history with that exception: an expired invitation ends up marked delivered |
| Invitations.StepIsGovernance | apps/api/app/services/invitations.py:395-455 | Each invitation step acts on memberships as at most one legal governance step |
| Invitations.RunKeepsOwners | apps/api/app/services/invitations.py:266-487 | Over every history of governance and invitations whose status changes are ACTIVE or SUSPENDED, every organization has an ACTIVE OWNER |
| Invitations.OwnerProvenance | apps/api/app/services/invitations.py:266-455 | Over every such history an OWNER role goes back to creation, to a grant by an active OWNER, or to accepting a token of an invitation that an active OWNER sent, and was held ever since |
| Invitations.RecordAnswer | apps/api/app/services/invitations.py:207-241 | A result is written if and only if the row is still in scope at the send's generation: success as delivered at that time without error, failure as failed with its code and the delivery time kept |
| Invitations.DeliveryProvenance | apps/api/app/services/invitations.py:186-264 | Over every history a delivered or failed mark comes from a reported success or failure of the invitation's newest send, with that time or code |
| Invitations.CreateAnswer | apps/api/app/services/invitations.py:266-327 | Which refusal a new invitation meets, read off the stored rows, and every field of the row and the send it stores otherwise |
| Invitations.ResendAnswer | apps/api/app/services/invitations.py:329-387 | Which outcome a resend has, read off the stored row, and every field it changes |
| Invitations.CancelAnswer | apps/api/app/services/invitations.py:457-487 | Cancelling changes exactly a PENDING invitation of the organization |
| Invitations.AcceptAnswer | apps/api/app/services/invitations.py:395-455 | Acceptance joins if and only if the row is PENDING and unexpired, the address matches and the membership is missing or removed; every other outcome and what it changes |
| Invitations.UnknownTokenAnswer | apps/api/app/services/invitations.py:395-400 | A token is unknown if and only if no row stores its hash, and then nothing changes |
| Invitations.MembersAreNotInvited | apps/api/app/services/invitations.py:276-281 | Once an address is registered to a member, inviting it changes nothing |
| Invitations.InvitationService.Create | apps/api/app/services/invitations.py:266-327 | First transaction of a new invitation: refusals in order, then one PENDING row, one snapshot of generation 0 and nothing else |
| Invitations.InvitationService.Resend | apps/api/app/services/invitations.py:329-387 | First transaction of a resend: new token, expiry and generation and a snapshot of them, or the expiry branch, or a refusal |
| Invitations.InvitationService.Record | apps/api/app/services/invitations.py:186-264 | Second transaction: the result is written only when row and generation still match the snapshot |
| Invitations.InvitationService.Accept | apps/api/app/services/invitations.py:395-455 | Acceptance by token: the row found is the only one with that hash, and the outcome is that of the acceptance step |
| Invitations.InvitationService.AcceptRow | apps/api/app/services/invitations.py:405-416 | Already accepted, not pending, expired, wrong address: each branch as in the acceptance step |
| Invitations.InvitationService.Enrol | apps/api/app/services/invitations.py:417-455 | Membership and invitation change together or not at all |
| Invitations.InvitationService.Cancel | apps/api/app/services/invitations.py:457-487 | A PENDING row is cancelled with a raised generation, any other left alone |
| Invitations.InvitationService.Admit | apps/api/app/services/invitations.py:266-292 | The refusals of creation, in their order |
| Invitations.InvitationService.Lookup | apps/api/app/services/invitations.py:395-404 | The row found by token hash is the one the acceptance step speaks of |
| Invitations.InvitationService.Access | apps/api/app/services/invitations.py:338-343 | Capability first, then the tenant-scoped row |
| Results.SanitizedIsClean | apps/api/app/security_rules/results.py:16-31 | Sanitising yields a value within all bounds: depth, list and string lengths, key lengths, no sensitive key |
| Results.FixedIffClean | apps/api/app/security_rules/results.py:16-31 | The sanitiser leaves a value alone if and only if it is already within the bounds |
| Results.SanitizeIdempotent | apps/api/app/security_rules/results.py:16-31 | Sanitising twice is sanitising once |
| Results.PrefixNotSensitive | apps/api/app/security_rules/results.py:12-31 | A key that is not sensitive stays so when it is cut |
| Results.SanitizeAnswer | apps/api/app/security_rules/results.py:16-31 | Below depth five texts are cut to 1000 characters, lists and dictionaries to their first 50 entries with every kept item sanitised; deeper values become the truncation mark |
| Results.EntriesExactly | apps/api/app/security_rules/results.py:19-24 | A sanitised dictionary has exactly one entry for each cut key that is not sensitive: the last value under it, sanitised |
| Results.SensitiveIff | apps/api/app/security_rules/results.py:8-10 | A key is sensitive if and only if one of the seven words of the pattern occurs in it, two of them with an optional character between their halves |
| Results.CaseIrrelevant | apps/api/app/security_rules/results.py:8-10 | Making letters of a key capital does not change whether it is sensitive |
| Findings.StoredEvidence | apps/api/app/security_rules/results.py:34-49 | A failing result's evidence is stored as it is, because it is already sanitised |
| Findings.ReconcileKeeps | apps/api/app/services/evaluations.py:219-319 | One result, a collision included, keeps the OPEN/RESOLVED/SUPPRESSED constraint and first_seen <= last_seen, and on any change raises the version by one and sets the sequence to the job's own |
| Findings.RepeatIsQuietIff | apps/api/app/services/evaluations.py:219-319 | Applying the same result again neither creates, reopens nor resolves, if and only if no suppression ran out in between |
| Findings.CollisionIsGuardedIff | apps/api/app/services/evaluations.py:246-271 | After an insert collision the finding ends up as if the first lookup had found it, if and only if no newer job stored it |
| Findings.SuppressKeepsLifecycleIff | apps/api/app/services/evaluations.py:479-524 | Suppressing keeps the lifecycle constraint if and only if the reason is not blank |
| Findings.FailedAnswer | apps/api/app/services/evaluations.py:219-290 | Every field of the finding a failure leaves: new, refreshed under a suppression in force, or reopened |
| Findings.PassedAnswer | apps/api/app/services/evaluations.py:303-319 | A pass resolves exactly a stored finding that is neither resolved nor under a suppression in force |
| Findings.EffectMeaning | apps/api/app/services/evaluations.py:219-319 | Each counted effect corresponds to how the stored finding changed, in both directions |
| Findings.SuppressAnswer | apps/api/app/services/evaluations.py:479-524 | A suppression is accepted if and only if it does not end by now; every field it stores |
| Findings.UnsuppressAnswer | apps/api/app/services/evaluations.py:526-558 | Ending a suppression reopens exactly a suppressed finding and clears who, when and why |
| Evaluations.WorkDistinct | apps/api/app/services/evaluations.py:129-167 | The nested loop meets every finding key at most once |
| Evaluations.ApplyAllPointwise | apps/api/app/services/evaluations.py:129-167 | The in-place loop is pointwise: each finding depends on its own old state and its own result, every other key is untouched |
| Evaluations.FinalStatus | apps/api/app/services/evaluations.py:129-167 | After the whole evaluation a finding's status follows from the finding before it, its own result and the clock: OPEN after a failure, RESOLVED after a pass, SUPPRESSED while shielded, otherwise as before |
| Evaluations.CountersConserve | apps/api/app/services/evaluations.py:201-320 | evaluated is the sum of passed, failed, errors and not applicable, each the number of such results; created + updated + reopened is the number of live failures; resolved <= passed |
| Evaluations.SecondRunIsQuiet | apps/api/app/services/evaluations.py:129-167 | A second evaluation with the same results creates, reopens and resolves nothing if no suppression expires between |
| Evaluations.TerminalMeaning | apps/api/app/services/evaluations.py:168-176 | FAILED, PARTIAL and COMPLETED exactly when all (of at least one), some and no results are errors |
| Evaluations.SummaryAt | apps/api/app/services/evaluations.py:129-167 | The r-th summary counts exactly the r-th rule's results |
| Evaluations.SummariesAddUp | apps/api/app/services/evaluations.py:129-167 | The job's counters are the sums over the per-rule summaries |
| Evaluations.RunReconciles | apps/api/app/services/evaluations.py:129-176 | Pointwise table, live-failure count, summary sums and resolved <= passed for one whole evaluation |
| Evaluations.WorkSound | apps/api/app/services/evaluations.py:129-167 | Every result of a run is that of a listed rule for an asset it applies to, at its turn; an exception counts as ERROR |
| Evaluations.WorkComplete | apps/api/app/services/evaluations.py:129-167 | Every listed rule has its result for every asset of its kinds, or one for the account |
| Evaluations.TargetIff | apps/api/app/services/evaluations.py:129-167 | A target is worked on if and only if a listed rule with its key applies to its asset |
| Evaluations.CountIsNumber | apps/api/app/services/evaluations.py:193-217 | Each counted status is the number of results that have it |
| EvaluationJobs.CollisionIsGuarded | apps/api/app/services/evaluations.py:246-271 | With one running job per account the sequence check missing after an insert collision changes nothing: the step is the one a successful lookup would have made |
| EvaluationJobs.RunKeepsFindings | apps/api/app/services/evaluations.py:41-337 | Over every history of jobs, results, insert collisions, suppressions and their ends, every finding keeps its constraint, its version rises with every change and its sequence never falls; a finding collided with included |
| EvaluationJobs.StepFollows | apps/api/app/services/evaluations.py:219-319 | Per step, of the finding worked on: the version rises by exactly one on a change, the sequence does not fall, first_seen stays |
| EvaluationJobs.StepLowersSequenceIff | apps/api/app/services/evaluations.py:252-271 | Without the one-job rule a step lowers a sequence if and only if its insertion collides with a newer job's finding |
| EvaluationJobs.TwoJobsLowerSequence | apps/api/app/services/evaluations.py:252-271 | A written-down state with two running jobs, outside the invariant and so reached by no history, in which that happens |
| EvaluationJobs.EvaluationIsRun | apps/api/app/services/evaluations.py:129-167 | The results of an evaluation, as events of a history, are legal and leave the table the loop leaves |
| EvaluationJobs.EvaluationKeepsFindings | apps/api/app/services/evaluations.py:129-167 | So a whole evaluation of a running job keeps every finding's constraint, version and sequence |
| EvaluationJobs.JobAnswer | apps/api/app/services/evaluations.py:41-79 | A job starts if and only if none of the account runs, with the next sequence, and runs until it finishes |
| EvaluationJobs.TableAnswer | apps/api/app/services/evaluations.py:193-319 | Under each target, a step of a history stores what the result, the suppression or its end makes of the finding, and leaves every other finding alone |
| EvaluationService.Evaluation.Run | apps/api/app/services/evaluations.py:81-176 | The nested loop over stored rows equals applying all results in order; counters, summaries and terminal status are those of the specification |
| EvaluationService.Evaluation.RunRule | apps/api/app/services/evaluations.py:138-163 | One rule over its targets: rows, counters, summary and the error flag |
| EvaluationService.Evaluation.ApplyResult | apps/api/app/services/evaluations.py:193-337 | One result changes one stored row and the two sets of counters as specified |
| EvaluationService.Evaluation.ReconcileRow | apps/api/app/services/evaluations.py:219-319 | The stored row after a PASS or FAIL result: guarded update, insertion, or the update after an insert collision |
| EvaluationService.Evaluation.Collide | apps/api/app/services/evaluations.py:252-291 | After a collision the row stored meanwhile is read again and updated without a sequence check |
| EvaluationService.Evaluation.SuppressFinding | apps/api/app/services/evaluations.py:479-524 | Forbidden, not found or an expiry that is not in the future change nothing; otherwise the suppressed row |
| EvaluationService.Evaluation.UnsuppressFinding | apps/api/app/services/evaluations.py:526-558 | Forbidden or not found change nothing; a suppressed row is reopened, any other left alone |
| Sessions.StepKeepsInv | apps/api/app/services/auth.py:134-235 | Login, refresh, logout, password change and user edits keep every family a chain: all but the last session revoked and linked to the next |
| Sessions.OneLivePerFamily | apps/api/app/services/auth.py:134-200 | A family has at most one unrevoked session |
| Sessions.LinksAreAcyclic | apps/api/app/services/auth.py:187-200 | In every reachable state replacement links never revisit a session, stay in one family and start only from revoked sessions |
| Sessions.ReuseKillsFamily | apps/api/app/services/auth.py:165-178 | Presenting a revoked token leaves its family without a usable token in every future, and every later use of the family is answered as reuse |
| Sessions.RevokedForever | apps/api/app/services/auth.py:134-235 | A revoked session stays revoked and keeps its token hash |
| Sessions.RotatesOnce | apps/api/app/services/auth.py:156-200 | A token is rotated at most once, whatever happens in between |
| Sessions.PasswordChangeEndsFamilies | apps/api/app/services/auth.py:220-235 | After a password change none of the user's families ever has a usable token again |
| Sessions.RefreshAnswer | apps/api/app/services/auth.py:156-200 | For each stored token: revoked, expired, inactive user or rotation, if and only if, and every session each of them changes |
| Sessions.RefreshIssuedIff | apps/api/app/services/auth.py:156-200 | Tokens are issued if and only if some stored session has the presented token, is not revoked, has not expired and has an active user; an unknown token changes nothing |
| Sessions.LoginAnswer | apps/api/app/services/auth.py:98-154 | A login issues tokens if and only if the user is active and the password matches: one live session of a new family |
| Sessions.LogoutAnswer | apps/api/app/services/auth.py:202-218 | A logout revokes exactly the presented session if it is live |
| Sessions.ChangePasswordAnswer | apps/api/app/services/auth.py:220-235 | A password change succeeds if and only if the current password matches and the new one is acceptable; it revokes every live session of the user |
| Sessions.InactiveIsShutOut | apps/api/app/services/auth.py:98-200 | After a user was made inactive, neither a login nor a stored refresh token gets tokens |
| Sessions.AuthService.Login | apps/api/app/services/auth.py:98-132 | A new family with one session, or a refusal |
| Sessions.AuthService.Refresh | apps/api/app/services/auth.py:156-200 | Refresh by token is the refresh step on the stored rows |
| Sessions.AuthService.Rotate | apps/api/app/services/auth.py:165-200 | Reuse, expiry, inactive user and rotation, in that order, each with exactly its changes |
| Sessions.AuthService.Logout | apps/api/app/services/auth.py:202-218 | The presented session is revoked if it was live; nothing else |
| Sessions.AuthService.ChangePassword | apps/api/app/services/auth.py:220-235 | A wrong current or an unacceptable new password changes nothing; otherwise the password changes and every session of the user is revoked |
| Sessions.AuthService.RevokeSessionsOf | apps/api/app/services/auth.py:165-178 | Every live session of a family is revoked, no other is touched |
| Slugs.CandidateInjective | apps/api/app/services/auth.py:87-96 | Candidates of different counters differ even after the base was cut to fit |
| Slugs.CandidateFitsIff | apps/api/app/services/auth.py:87-96 | A candidate is at most 100 characters if and only if its counter has fewer than 100 digits, for a base of at most 100 |
| Slugs.Pigeonhole | apps/api/app/services/auth.py:87-96 | If every candidate below n is taken there are at least n - 2 taken slugs |
| Slugs.AvailableSlug | apps/api/app/services/auth.py:87-96 | The search terminates within one suffix more than there are taken slugs and returns the first free candidate, at most 100 characters long |
| Slugs.FirstFreeUnique | apps/api/app/services/auth.py:87-96 | The specification of the search determines the slug |
| Slugs.CandidateShape | apps/api/app/services/auth.py:87-96 | A candidate is as much of the base as leaves room, a dash and the counter, 100 characters at most |
| Text.DecimalDenotes | apps/api/app/services/auth.py:87-96 | The suffix is the decimal numeral of the counter |
| Text.StripIdentity | scripts/selfhost/configure.py:40-52 | str.strip leaves a string alone if and only if it has no white space at its ends |
| Discovery.UpsertedPointwise | apps/api/app/services/discovery.py:930-969 | A collector's upsert and deactivation, identity by identity: the last item of an identity decides the row |
| Discovery.ReconcilesExactly | apps/api/app/repositories/assets.py:29-51 | Afterwards the account's active assets of the collector's types are exactly what it returned, and every other row is untouched |
| Discovery.RunPointwise | apps/api/app/services/discovery.py:892-918 | A whole discovery, identity by identity: the collector that owns the type decides, a failed one leaves the row |
| Discovery.RunReconcilesExactly | apps/api/app/services/discovery.py:892-969 | After a whole discovery each successful collector's types hold exactly what it returned as active assets of the account, a failed collector's rows and all other accounts are as before |
| Discovery.OrderIrrelevant | apps/api/app/services/discovery.py:892-918 | The order of the collectors does not affect the final inventory |
| Discovery.NewCount | apps/api/app/services/discovery.py:930-969 | created is the number of distinct returned identities not stored before |
| Discovery.CountersBalance | apps/api/app/services/discovery.py:892-918 | created + updated equals the number of discovered assets over the whole discovery; failed collectors add nothing |
| Discovery.CollectorsPartitionTypes | apps/api/app/services/discovery.py:797-816 | The collectors own pairwise disjoint types and between them every type |
| Discovery.StatusMeaning | apps/api/app/services/discovery.py:971-1025 | COMPLETED if and only if every collector succeeded, FAILED if and only if none of at least one did |
| Discovery.SucceedsIff | apps/api/app/services/discovery.py:892-918 | A collector succeeds if and only if it does not raise and returns no two items of one identity that was not stored |
| Discovery.ReturnedRow | apps/api/app/services/discovery.py:930-969 | A returned asset takes the details last returned for it, is active and seen now, and keeps the time it was first seen |
| Discovery.VanishedRow | apps/api/app/repositories/assets.py:29-51 | A stored asset of the collector's types that was not returned only becomes inactive |
| Discovery.CollectorCounts | apps/api/app/services/discovery.py:930-969 | A successful collector adds its items, its distinct new identities, the rest, and the assets it switched off to the counters; a failing one adds nothing |
| Discovery.Inventory.Run | apps/api/app/services/discovery.py:892-918 | Rows, counters and status of the loop over collectors, a failing one rolled back |
| Discovery.Inventory.Upsert | apps/api/app/services/discovery.py:930-969 | One collector: rows and counters, or a collision that leaves the caller to roll back |
| Discovery.Inventory.UpsertItems | apps/api/app/services/discovery.py:930-960 | The loop over one list of assets |
| Discovery.Inventory.DeactivateMissing | apps/api/app/repositories/assets.py:29-51 | Exactly the active assets of the types not seen are deactivated, and counted |
| RateLimit.RefusedUntil | apps/api/app/security/rate_limit.py:30-39 | With nothing else accepted, the key is refused at every time before events[0] + W and accepted from then on |
| RateLimit.RetryAfter | apps/api/app/security/rate_limit.py:31 | The delay is at least one second, reaches the time the oldest event leaves, and is the least such number of whole seconds |
| RateLimit.WindowBounded | apps/api/app/security/rate_limit.py:20-40 | Spaced acceptances put at most limit of them into any half-open window of length W |
| RateLimit.NeverOverLimit | apps/api/app/security/rate_limit.py:20-40 | Over all uses of a limiter no half-open window of length W holds more than limit acceptances of a key |
| RateLimit.InMemoryRateLimiter.Check | apps/api/app/security/rate_limit.py:20-40 | Accepts exactly when the whole history has fewer than limit acceptances in (now - W, now]; after a refusal the window stays full until exactly events[0] + W, and the advised delay is the least whole number of seconds that reaches it |
| RateLimit.InMemoryRateLimiter.Prune | apps/api/app/security/rate_limit.py:28-29 | The pruned queue is as long as the history inside the window |
| Risk.AccountRiskPermuted | apps/api/app/risk_engine.py:235-250 | Only the bag of scores matters |
| Risk.AccountRiskMonotone | apps/api/app/risk_engine.py:235-250 | Raising scores, their number fixed, lowers none of score, priority, highest, top-ten mean and overall mean |
| Risk.AccountRiskOrdered | apps/api/app/risk_engine.py:235-250 | overall mean <= top-ten mean <= highest, the score lies between the outer two, and highest is attained and an upper bound |
| Risk.AccountRiskNearExact | apps/api/app/risk_engine.py:270-286 | The score is within 3/4 of the weighted value with nothing rounded, each mean within 1/2 of its exact value |
| Risk.OrganizationRiskLaws | apps/api/app/risk_engine.py:253-267 | mean <= score <= highest, and highest bounds every score |
| Risk.OrganizationRiskNearExact | apps/api/app/risk_engine.py:253-286 | The organization's score is within 7/10 of the weighted value with nothing rounded, its mean within 1/2 of the exact mean |
| Risk.OrganizationRiskPermuted | apps/api/app/risk_engine.py:253-267 | Only the bag of account scores matters |
| Risk.OrganizationRiskMonotone | apps/api/app/risk_engine.py:253-267 | Raising account scores never lowers the organization's |
| Risk.RoundNearest | apps/api/app/risk_engine.py:285-286 | Half-up rounding is the one integer within half a unit, the upper one on a tie |
| Risk.PrefixMean | apps/api/app/risk_engine.py:235-250 | A prefix of a descending list has at least the mean of the whole |
| Risk.SortCorrect | apps/api/app/risk_engine.py:235-250 | The sorted list is descending and a permutation |
| Risk.PriorityBands | apps/api/app/risk_engine.py:152-160 | Both aggregates are CRITICAL from 80, HIGH from 60, MEDIUM from 30 and LOW below, in both directions |
| Risk.FocusIsTopTen | apps/api/app/risk_engine.py:235-250 | The focused mean is that of the ten highest scores, or of all if there are no more |
| Onboarding.StepKeepsInv | apps/api/app/services/aws_onboarding.py:127-411 | Every step keeps: a stored token belongs to a validation of this account with the role now stored, status fields agree, accounts differ in provider id, role and external id, reservations and accounts match |
| Onboarding.ConnectedProvenance | apps/api/app/services/aws_onboarding.py:258-295 | In every history, a CONNECTED account had a validation started with the role now stored, the success of that very validation was accepted later, and the role never changed in between |
| Onboarding.TokenProvenance | apps/api/app/services/aws_onboarding.py:258-275 | A stored token goes back to an accepted start, with the role unchanged since |
| Onboarding.SpentForever | apps/api/app/services/aws_onboarding.py:392-405 | A superseded answer never writes: it is refused in every future and changes nothing |
| Onboarding.SupersededIff | apps/api/app/services/aws_onboarding.py:408-411 | A running validation is superseded by a step if and only if the step changes or deletes its account's row |
| Onboarding.VersionCountsChanges | apps/api/app/services/aws_onboarding.py:164-411 | The lifecycle version rises by exactly one when the row changes, and only then |
| Onboarding.DisconnectStopsAnswerIff | apps/api/app/services/aws_onboarding.py:297-309 | Disconnecting stops a running validation if and only if the account was not disconnected already |
| Onboarding.LateAnswerReconnects | apps/api/app/services/aws_onboarding.py:297-309 | From any disconnected account with a role: start, disconnect again, success, and the account is CONNECTED |
| Onboarding.DisconnectedIsReached | apps/api/app/services/aws_onboarding.py:127-309 | A concrete history reaching such a state |
| Onboarding.RetiredForever | apps/api/app/services/aws_onboarding.py:311-325 | A retired external id stays retired and no account ever holds it again |
| Onboarding.ExternalIdFixed | apps/api/app/services/aws_onboarding.py:311-325 | An account keeps its external id for life, and only deletion ends it, retiring the id |
| Onboarding.DeleteKeepsInv | apps/api/app/services/aws_onboarding.py:311-325 | Deletion keeps the invariant and never takes the missing-reservation branch |
| Onboarding.CreateAnswer | apps/api/app/services/aws_onboarding.py:96-162 | Which refusal a new account meets, and every field of the account and reservation stored otherwise, with an external id never issued before |
| Onboarding.UpdateRoleAnswer | apps/api/app/services/aws_onboarding.py:164-179 | A role is stored if and only if it is well formed, of the account's provider id and free in the organization; everything it resets |
| Onboarding.UpdateAccountAnswer | apps/api/app/services/aws_onboarding.py:181-208 | Name and role are stored together or neither; a rename alone changes the name and supersedes a validation |
| Onboarding.StartAnswer | apps/api/app/services/aws_onboarding.py:258-270 | A validation starts if and only if there is a role and none is running; it stores the token and the time |
| Onboarding.FinishAnswer | apps/api/app/services/aws_onboarding.py:271-295 | An answer is stored if and only if its token is still the account's: CONNECTED, or FAILED with the reason |
| Onboarding.DisconnectAnswer | apps/api/app/services/aws_onboarding.py:297-309 | Disconnecting changes exactly an account that is not disconnected yet |
| Onboarding.DeniedAnswer | apps/api/app/services/aws_onboarding.py:74-94 | An actor without the capability, or an account that is not there, is refused and nothing changes |
| Onboarding.DeleteAnswer | apps/api/app/services/aws_onboarding.py:311-325 | Deleting removes exactly that account and retires exactly its reservation, now |
| OnboardingService.AWSOnboardingService.ReserveExternalId | apps/api/app/services/aws_onboarding.py:107-125 | The first candidate never issued before, none when all were |
| OnboardingService.AWSOnboardingService.CreateAccount | apps/api/app/services/aws_onboarding.py:127-162 | Refusals in order, then one account with its reservation, or nothing |
| OnboardingService.AWSOnboardingService.UpdateRole | apps/api/app/services/aws_onboarding.py:164-179 | A refused ARN changes nothing; an accepted one resets the connection and supersedes |
| OnboardingService.AWSOnboardingService.UpdateAccount | apps/api/app/services/aws_onboarding.py:181-208 | Name and role are written together or not at all; either supersedes |
| OnboardingService.AWSOnboardingService.StartValidation | apps/api/app/services/aws_onboarding.py:258-275 | First half of a validation: the token is stored, or a refusal changes nothing |
| OnboardingService.AWSOnboardingService.FinishValidation | apps/api/app/services/aws_onboarding.py:276-295 | Second half: written only when the token still matches |
| OnboardingService.AWSOnboardingService.DisconnectAccount | apps/api/app/services/aws_onboarding.py:297-309 | The early return for disconnected accounts changes nothing; otherwise disconnect and supersede |
| OnboardingService.AWSOnboardingService.DeleteAccount | apps/api/app/services/aws_onboarding.py:311-325 | The row goes and its reservation is retired in one transaction |
| EnvFile.RoundTripIff | scripts/selfhost/configure.py:36-149 | Reading a written file returns the written values if and only if each is stripped, on one line, without NUL and not wrapped in one kind of quote; = and # are free |
| EnvFile.ConfigurationRoundTrips | scripts/selfhost/configure.py:138-149 | The same for the keys the installer writes, in their order |
| EnvFile.QuotesAreLost | scripts/selfhost/configure.py:60-61 | A concrete value in quotes that comes back without them |
| EnvFile.WriteThenRead | scripts/selfhost/configure.py:36-149 | What comes back for all values without line breaks or NUL: each stripped, then unquoted |
| EnvFile.CollectMeaning | scripts/selfhost/configure.py:36-68 | Reading fails at the first malformed line with its number, and otherwise gives each key its last assignment |
| EnvFile.ReadIsClean | scripts/selfhost/configure.py:62-66 | No value read from any file holds a line break or NUL |
| EnvFile.ParseAssignment | scripts/selfhost/configure.py:42-67 | A written assignment parses to its key and the stripped, unquoted value |
| EnvFile.SplitJoin | scripts/selfhost/configure.py:39-145 | Single lines joined by line feeds are the lines read back |
| EnvFile.ReadEnv | scripts/selfhost/configure.py:36-68 | The loop of read_env: same values and same error with its line number |
| EnvFile.ReadLine | scripts/selfhost/configure.py:40-67 | One line: blank or comment, assignment, or one of the three faults |
| EnvFile.WriteEnv | scripts/selfhost/configure.py:138-149 | The text written, or a KeyError when a key is missing |
| EnvFile.LineWithoutEquals | scripts/selfhost/configure.py:40-45 | A line is skipped if and only if it is empty or a comment once stripped; otherwise without an equals sign it is malformed |
| EnvFile.LineWithEquals | scripts/selfhost/configure.py:46-67 | A line splits at its first equals sign; the stripped left side must be a key and the stripped right side loses a pair of quotes |
| EnvFile.UnquoteMeaning | scripts/selfhost/configure.py:54-60 | One pair of the same quote is taken off, a lone quote vanishes, and nothing else changes |
| AiRequests.StepKeepsInv | apps/api/app/services/ai.py:115-348 | Every call keeps: each hour's count and tokens are the sums over the committed requests charged to it, at most 100; one request per key; all terminal; COMPLETED if and only if there is a response, and never two |
| AiRequests.ReachableInv | apps/api/app/services/ai.py:83-348 | The same in every reachable state |
| AiRequests.RetriesChangeNothing | apps/api/app/services/ai.py:126-139 | Once a key is committed, every later call with it changes nothing: the same request is returned, or a conflict when the fingerprint differs |
| AiRequests.CommittedForever | apps/api/app/services/ai.py:83-348 | A committed request, its response and its charge never change |
| AiRequests.CommitsIff | apps/api/app/services/ai.py:141-348 | A call commits if and only if it answers with a draft or a provider failure; any other call changes nothing |
| AiRequests.ChargedIff | apps/api/app/services/ai.py:141-348 | Exactly a committing call is charged one unit, to its own organization and hour |
| AiRequests.LimitedIff | apps/api/app/services/ai.py:158-166 | A new key is refused if and only if one hundred requests were committed in its hour |
| AiRequests.RetryReachesNextHourIff | apps/api/app/services/ai.py:159 | Waiting the advised seconds reaches the next window if and only if a whole number of seconds, or at most one second, was left |
| AiRequests.RetryCanFallShort | apps/api/app/services/ai.py:159 | A concrete time at which the advised delay ends in the same window |
| AiRequests.InvokeProvider | apps/api/app/services/ai.py:510-550 | At most two calls, none when disabled; a second one if and only if the first failed retryably; the last answer counts |
| AiRequests.AnsweredIff | apps/api/app/services/ai.py:141-348 | A call is answered if and only if its inputs and key are new, its hour has fewer than 100, the answer that counts is a valid draft and the process does not stop; response, request and charge in full |
| AiRequests.RefusedIff | apps/api/app/services/ai.py:240-344 | A call is refused if and only if it is admitted and the answer that counts is no valid draft; the request is committed without response and tokens |
| AiRequests.RefusedAs | apps/api/app/services/ai.py:240-344 | Status and public code of each provider error, of an exception and of an invalid draft |
| AiRequests.OtherwiseUnchanged | apps/api/app/services/ai.py:83-348 | Every other call changes nothing; when it is rejected and when interrupted |
| AiRequests.AIService.Generate | apps/api/app/services/ai.py:83-348 | Idempotency, quota and the attempt on the stored rows, as the specified step |
| AiRequests.AIService.Attempt | apps/api/app/services/ai.py:141-348 | One transaction: committed in a terminal state, or rolled back as if nothing had been inserted or counted |
| AiRequests.AIService.Settle | apps/api/app/services/ai.py:239-346 | Status, error code, response and tokens for each kind of answer |
| Remediation.RevokeIngress | apps/api/app/services/aws_remediation_executor.py:177-241 | Whatever AWS answers: the calls are a prefix of describe, list, revoke, list; the one mutating call is made if and only if every check passed on what was read; success if and only if also only the approved rule is gone; otherwise the first failure is reported |
| Remediation.CheckedRule | apps/api/app/services/aws_remediation_executor.py:182-211 | The checks before the mutating call: passed if and only if the evidence and the first two answers agree, and the first that fails is reported |
| Remediation.RevocationRoundTrip | apps/api/app/services/aws_remediation_executor.py:212-241 | After success, with the distinct ids AWS gives its rules, the rules listed first are those listed last plus the reported rollback rule |
| Remediation.RollbackRestoresIff | apps/api/app/services/aws_remediation_executor.py:220-241 | After success, re-adding the rollback rule restores the rules read before if and only if no other rule shared its id |
| Remediation.ApprovedIff | apps/api/app/services/aws_remediation_executor.py:243-257 | A rule is approved if and only if the evidence has exactly one candidate, that one, and it carries an id |
| Remediation.SecurityGroupRules | apps/api/app/services/aws_remediation_executor.py:272-279 | The paginated loop returns the group's rules, normalised and sorted |
| Remediation.SortedKeyed | apps/api/app/services/aws_remediation_executor.py:272-279 | Sorting does not change which rule an id stands for |
| Remediation.BlockPublicAccess | apps/api/app/services/aws_remediation_executor.py:113-175 | The mutating call is made if and only if the checks passed; success if and only if the configuration read back is the desired one; the rollback state is what was read before and equals the evidence; otherwise the first failure is reported |
| Remediation.ApprovedIsSoleOffender | apps/api/app/services/aws_remediation_executor.py:243-270 | The approved rule is the one world-open ingress rule of the group for what the finding reports, tcp 22, tcp 3389 or all protocols, if it is the only one and carries an id |
| Remediation.ApprovedRuleOffends | apps/api/app/services/aws_remediation_executor.py:243-270 | An approved rule is itself of the group, ingress, open to 0.0.0.0/0 or ::/0, and tcp 22 to 22 for SSH, tcp 3389 to 3389 for RDP, protocol -1 for all traffic |
| Remediation.NormalizeKeeps | apps/api/app/services/aws_remediation_executor.py:282-287 | Normalising keeps exactly the eleven listed fields with their values, the direction as a boolean |
| Remediation.RulesReadMembers | apps/api/app/services/aws_remediation_executor.py:272-279 | A rule is read if and only if an element of some page is a rule of the group with that normal form |
| Remediation.SortedCorrect | apps/api/app/services/aws_remediation_executor.py:279 | Sorting gives a permutation in the order of the ids |
| Remediation.AtMostMeaning | apps/api/app/services/aws_remediation_executor.py:279 | The order is that of the first differing character, with proper prefixes first |
| Remediation.CurrentMeaning | apps/api/app/services/aws_remediation_executor.py:199-209 | The current rule is the first one read that carries the approved id |
| Remediation.KeyedMeaning | apps/api/app/services/aws_remediation_executor.py:220-229 | A name stands for the last rule read that carries it |
| Remediation.TagsMeaning | apps/api/app/services/aws_remediation_executor.py:296-308 | The tags suffice if and only if the last value of each of the three required keys is the required one |
| Remediation.BlockMeaning | apps/api/app/services/aws_remediation_executor.py:290-293 | A configuration is read key by key, on only where the answer is true itself |
| Compliance.ControlStatus | apps/api/app/services/compliance.py:402-450 | The loop with its early returns equals a statement about sets of findings, mappings and results |
| Compliance.MatchedResults | apps/api/app/services/compliance.py:415-438 | The union over rule keys, or nothing when a mapped rule has no result in scope |
| Compliance.MatchesOf | apps/api/app/services/compliance.py:417-433 | The results of one rule inside its mapped ranges |
| Compliance.OrderAndRepetitionIrrelevant | apps/api/app/services/compliance.py:402-450 | Reordering or repeating mappings, findings or results changes no status |
| Compliance.MergingIrrelevant | apps/api/app/services/compliance.py:402-450 | Merging two overlapping or adjacent version ranges of a rule changes no status |
| Compliance.ScopeDecides | apps/api/app/services/compliance.py:402-450 | Mappings matter only through the rules they name and the versions they cover |
| Compliance.PassIff | apps/api/app/services/compliance.py:402-450 | PASS if and only if the evaluation is sound, no active finding is in scope, every mapped rule has results, all in scope are clean and one passed something |
| Compliance.FailIff | apps/api/app/services/compliance.py:351-414 | FAIL if and only if an active finding is in scope, whatever the evaluation says |
| Compliance.MeaningOfRelevant | apps/api/app/services/compliance.py:384-399 | Filtering the findings first changes no status |
| Compliance.GroupMappings | apps/api/app/services/compliance.py:238-246 | Each control gets exactly its own mappings, in order |
| Compliance.Assess | apps/api/app/services/compliance.py:269-310 | One row per control with its status and finding count; the four counters count those rows and sum to the number of controls |
| Compliance.StatusIff | apps/api/app/services/compliance.py:351-450 | FAIL, ERROR and PASS by what the evaluation's job, the findings in force and the results say, both directions; NOT_ASSESSED otherwise |
| Compliance.RelevantCount | apps/api/app/services/compliance.py:384-399 | A finding is counted as often as it is listed if some range mapped for its rule holds its version, and otherwise not |
| Compliance.MappingsOfMembers | apps/api/app/services/compliance.py:238-246 | A control's mappings are exactly those naming it |
| Compliance.CountIsNumber | apps/api/app/services/compliance.py:269-310 | Each counter is the number of rows with that status |

## Left out

- Database isolation anomalies, and the ORM's flush and refresh behaviour: each committed segment is one serial step.
- Identity freshness and cryptography: UUIDs and raw tokens are fresh, hashes are injective; passwords are compared as values.
- Clocks: event times are parameters, assumed not to run backwards for one finding and for one limiter; the limiter's times are reals.
- Audit rows, logs, notifications, e-mail texts, HTTP routes, request schemas, settings and the web client.
- Individual security rules, per-component risk points, and the role table beyond the member and invitation capabilities.
- Memberships are keyed by organization and user, not by their own id; organization names and joined_at are not stored, slugs only as a set of those in use.
- Invitations.InvitationService.Record: reads the committed row. The code's locking query (apps/api/app/repositories/data.py:132-148) does not ask for a row already loaded in the session to be overwritten, and sessions keep loaded rows over a commit (apps/api/app/db/session.py:12); that the generation compared is the committed one is an assumption.
- E-mail normalisation, slugify and collapsing white space in names: the normalised text is the input.
- Invitation rows from before delivery was recorded (null delivery fields).
- EvaluationService.Evaluation.ReconcileRow: an insertion that fails although no finding is found afterwards raises in the code; that error is part of the exception path.
- EvaluationService.Evaluation.Run: stops before _finish; the exception path with its rollback, and counters that change after _finish re-reads the job, are not modelled; a finding's last evaluation is identified by its sequence.
- Results.SensitiveIff: key matching folds case for ASCII letters only, here and in everything else about keys.
- Sessions.AuthService.ChangePassword: whether the new password meets the rules of validate_password is an input.
- EvaluationService.Evaluation.SuppressFinding: whether the actor has the capability is an input; that the reason is not blank is left to the request schema.
- Sessions.AuthService.Login: the password check is equality, and client address and user agent of a session are left out.
- Discovery.Inventory.Run: asset rows are values in a map, so update in place and aliasing are not captured; a failing collector restores the map; json_safe, tags and updated_at are left out.
- Discovery.OrderIrrelevant: what a collector answers, its timestamps included, is fixed beforehand and does not depend on the collectors before it.
- RateLimit.InMemoryRateLimiter.Check: the lock is not modelled; each check is one step.
- Risk.AccountRiskNearExact: Decimal's 28-digit precision is not modelled; means are exact fractions before rounding.
- OnboardingService.AWSOnboardingService.CreateAccount: external-id reservations are values in a map; the unique-constraint race on commit cannot occur between serial steps.
- OnboardingService.AWSOnboardingService.UpdateRole: a role ARN arrives after pattern matching, as malformed or as account and path.
- EnvFile.ReadEnv: decoding of the file and file modes are left out; the text is a sequence of Unicode characters.
- validate and configure of scripts/selfhost/configure.py, which check and merge values before they are written.
- AiRequests.AIService.Generate: building the context, source staleness and source rows are left out; the fingerprint is an input that stands for everything hashed into it.
- Remediation.RevokeIngress: request ids and session credentials are left out; numbers and booleans of JSON are never equal to each other.
- Remediation.BlockPublicAccess: the evidence is absent, a configuration, or unreadable; other JSON equalities are left out.
- execute of aws_remediation_executor.py, which dispatches to the two actions and maps exceptions to codes.
- Compliance.MatchedResults: takes the rule keys in any order, where the code sorts them; results are compared as values, not by identity.
- Compliance.Assess: loading of catalog, framework and evaluation, and the stored assessment row, are left out.
