# Jobs for Women: verified models

A women's job portal with a TypeScript back end (Express, Prisma, an in-process event bus), a React client and
k6 load tests. This project models the parts of it that keep state over many calls or speak a text format, and
proves what they keep. Check it with `dafny verify dfyconfig.toml`.

| part | files |
|---|---|
| CSV exports and an independent RFC 4180 reader | `Csv.dfy`, `CsvExport.dfy` |
| Roles, permissions and the permission cache | `Rbac.dfy`, `RbacWrites.dfy`, `RbacService.dfy`, `PermissionCache.dfy` |
| Super Admin retention | `SuperAdmin.dfy`, `SuperAdminSteps.dfy` |
| Job applications | `Applications.dfy`, `ApplicationTraces.dfy`, `ApplicationSteps.dfy` |
| Job moderation and company suspension | `JobModeration.dfy`, `JobModerationSteps.dfy`, `CompanySuspension.dfy`, `Schema.dfy` |
| The event bus and its listeners | `Handlers.dfy`, `CallFlow.dfy`, `EventBus.dfy`, `Listeners.dfy` |
| Notifications and the match fan-out | `Notifications.dfy`, `Matching.dfy` |
| Single-flight token refresh against server-side rotation | `TokenRefresh.dfy`, `TokenRotation.dfy`, `TokenServices.dfy` |
| The k6 budget guard | `BudgetGuard.dfy` |
| The cookie parser | `Cookies.dfy`, `PercentCoding.dfy` |
| Paged listings and the audit tabs | `Pagination.dfy` |
| Shared datatypes and JavaScript's text operations | `Basics.dfy` |

Tables are maps, sets or sequences. What a call does to them is a function (`Outcome`, `After`, `Suspend`,
`Next`, ...); the services are classes whose methods change fields step by step as the source does and are
proved to compute that function, and to leave each row, and return each error, as the contract says without it; the
theorems are about the function, over every state and every run.
Generated ids, clock readings, lookups in other tables and failures of the database or the network are
parameters. Where the source checks in one database call and writes in a later one, the `...Steps` modules, and
the step machines of the cache and of the token refresh, take the calls apart and let them interleave.

## Where the code does less than it promises

Each of these is a theorem, most with the exact condition under which the code does keep the promise. Where a
comment in the source says otherwise, the model follows the code.

- `toCsv` does not escape its header row, so the round trip needs plain headers. The shipped headers are plain
  (`Csv.RoundTripExactly`, `CsvExport.ExportAll`).
- The cache loses coherence when an invalidation overtakes a load that has read the tables and not yet stored,
  or fails: the old permissions stay cached, with nothing pending, until they expire
  (`PermissionCache.RaceLeavesStaleEntry`).
- The comment in `createRole` says that nobody holds a role that did not exist a moment ago, so it invalidates
  nothing. It inserts the role's grants in a later database call than the role: a user who is assigned the role in
  between, and loaded, keeps an entry without them (`PermissionCache.GrantAfterAssignment`,
  `PermissionCache.LateGrantBreaksExactly`).
- `updateRole` can rename the Super Admin role, after which nobody holds it (`SuperAdmin.RenamedAway`).
  `removeAdminRole` and `assignRolesToUser` count suspended holders, so the last *active* Super Admin can lose
  the role (`SuperAdmin.LastActiveSuperAdminCanBeRemoved`).
- The comment on `lifecycleJob` says "resume" cannot bypass moderation. An admin's "pause" is allowed on a job
  in any state and makes it resumable by its recruiter (`JobModeration.PauseThenResumePublishes`).
- `unsuspendCompany` is described as bringing back what the suspension took away. A company that was never
  approved comes back approved, a recruiter suspended for another reason comes back active, and a job hidden
  earlier comes back visible (`CompanySuspension.UnsuspendUndoesExactly`).
- The application calls check and then write, in separate database calls; scheduling an interview and reapplying
  write in two. The invariants hold when calls do not overlap or hold their row (`ApplicationSteps.LocksAreEnough`).
  For calls that interleave or fail half-way, `ApplicationSteps.StepKeepsInvExactly` says which database call
  breaks them, and `ApplicationSteps.ScheduledWithoutInterview` is a run in which every status change is allowed
  and the interview is gone.
- `moderateJob` writes back the status it read even when it only features or hides a job, and `lifecycleJob` does
  not look again: overlapping a rejection, both put the rejected job back
  (`JobModerationSteps.FeatureUndoesReject`, `JobModerationSteps.ResumeUndoesReject`).
- The last-Super-Admin guards count before they write: two overlapping removals leave no Super Admin, two
  overlapping suspensions no active one (`SuperAdminSteps.TwoRemovalsLeaveNobody`). They hold as long as nobody
  loses the role in between (`SuperAdminSteps.UndisturbedRunsKeepASuperAdmin`). `deleteOwnAccount` has no
  such guard at all, and invalidates no cached permissions.
- The refresh endpoint checks and revokes in separate calls. If the client's connection fails while an exchange
  may still go through, its next refresh can exchange the same token again (`TokenRotation.EarlyFailureExchangesTwice`).
- A notification's key names the application, not the interview or the hiring cycle. A rescheduled interview,
  or one after a withdrawal and a reapply, is not announced while the first notification still exists
  (`Notifications.RepeatedEventDoesNothing`).
- A cookie named `__proto__` is lost (`Cookies.ParsePrintExactly`).
- An audit row without an entity shows under none of the tabs unless it is an RBAC or SECURITY row, because NULL
  is not "not in" a list (`AuditTabs.HiddenFromEveryTab`).
- With a limit of five or less the budget guard still lets one request through in every window
  (`BudgetGuard.CounterWithinBudgetExactly`).

## Model

| member | source | states |
|---|---|---|
| `Csv.ToCsv` | backend/src/modules/admin/admin.service.ts:1675-1689 | With plain headers and no empty row, an RFC 4180 reader gets back the headers and, field by field, each cell's text, and nothing at all for null and undefined |
| `Csv.FieldReadsBack` | backend/src/modules/admin/admin.service.ts:1675-1681 | Whatever a cell contains, an RFC 4180 reader gets exactly that value back from the escaped cell, in front of any comma, LF or end |
| `Csv.LineReadsBack` | backend/src/modules/admin/admin.service.ts:1685-1687 | A printed row of one or more cells reads back as that row, whatever follows it on later lines |
| `Csv.RoundTripExactly` | backend/src/modules/admin/admin.service.ts:1683-1689 | Reading `toCsv`'s output gives back headers and rows if and only if no header contains a comma, quote or LF and neither the header list nor a row is empty |
| `Csv.PrintingIsShortest` | backend/src/modules/admin/admin.service.ts:1675-1689 | Of all texts that read as a given table, the fully escaped print is the shortest; the "only if" of the round trip rests on it |
| `Csv.WriterIsInjective` | backend/src/modules/admin/admin.service.ts:1683-1689 | Two such tables with the same text are the same table |
| `Csv.OptionalEndRoundTripExactly` | backend/src/modules/admin/admin.service.ts:1683-1689 | For a reader that allows a final line break, the one table that does not come back is the one whose last row is a single empty cell |
| `CsvExport.ToCsvSection` | backend/src/modules/admin/admin.service.ts:1698-1700 | The same for a section: its title as a record of its own, the headers, and the cells field by field |
| `CsvExport.ExportRecoversExactly` | backend/src/modules/admin/admin.service.ts:1698-1700 | A combined export gives back all its sections, with titles, headers and rows, if and only if no record of it is one empty cell; cell contents, blank lines included, never make or hide a section break |
| `CsvExport.ExportAll` | backend/src/modules/admin/admin.service.ts:1957-1976 | The "all" export always reads back as its four sections, with their titles and headers and, field by field, the text of every cell, missing ones empty |
| `Rbac.KeepsWellFormed` | backend/src/modules/rbac/rbac.service.ts:19-387 | Every role, permission and assignment call keeps foreign keys and unique names |
| `Rbac.ChangesAreCovered` | backend/src/modules/rbac/rbac.service.ts:19-387 | No whole call, nothing in between, changes the effective permissions of a user outside the scope it invalidates, except that a user who deletes their own account loses theirs; the creating calls, which invalidate nobody, change nothing |
| `RbacWrites.UninterruptedCall` | backend/src/modules/rbac/rbac.service.ts:19-363 | Guards and writes taken apart: a call that nothing interrupts writes what the whole call does, `createRole` in two writes and every other call in one |
| `RbacWrites.WriteKeepsWellFormed` | backend/src/modules/rbac/rbac.service.ts:25-359 | Whatever its call saw, a write keeps foreign keys and unique names on whatever tables it meets |
| `RbacWrites.GrantChangesExactly` | backend/src/modules/rbac/rbac.service.ts:27-34 | `createRole`'s second write changes the permissions of somebody who holds the role by then if and only if one of the names is new to them |
| `RbacWrites.PassesExactly` | backend/src/modules/rbac/rbac.service.ts:248-259 | Whatever passes the guards succeeds if nothing intervenes, but for unknown permission ids, which only the insert finds |
| `RbacWrites.GrantsAllOrNothing` | backend/src/modules/rbac/rbac.service.ts:31-33 | The grants of a new role are inserted all or, if one cannot be, none |
| `RbacServices.CompletedCallsKeepCacheOk` | backend/src/modules/rbac/rbac.service.ts:85-387 | A completed call leaves every cached entry equal to the live join, if and only if it is not a user deleting their own account while permissions are cached for it |
| `RbacServices.RbacService.GetUserPermissions` | backend/src/shared/utils/permissionCache.ts:12-69 | Hit or load, a name is in the answer if and only if some role of the user has a permission of that name, and what a load stores is that |
| `RbacServices.RbacService.InvalidateUser` | backend/src/shared/utils/permissionCache.ts:74-83 | Exactly that user's entry is dropped |
| `RbacServices.RbacService.InvalidateAll` | backend/src/shared/utils/permissionCache.ts:88-99 | Every entry is dropped |
| `RbacServices.RbacService.CreateRoleWith` | backend/src/modules/rbac/rbac.service.ts:19-53 | A call that nothing interrupts: unique name, role row and grants by permission name; nothing invalidated, cache still coherent |
| `RbacServices.RbacService.RenameRole` | backend/src/modules/rbac/rbac.service.ts:85-115 | Renaming with its errors, any role included; all entries dropped |
| `RbacServices.RbacService.RemoveRole` | backend/src/modules/rbac/rbac.service.ts:117-151 | Refuses system and assigned roles, cascades the grants, drops all entries |
| `RbacServices.RbacService.AddPermission` | backend/src/modules/rbac/rbac.service.ts:156-174 | Unique name; nothing invalidated, cache still coherent |
| `RbacServices.RbacService.RenamePermission` | backend/src/modules/rbac/rbac.service.ts:188-216 | Renaming with its errors; all entries dropped |
| `RbacServices.RbacService.RemovePermission` | backend/src/modules/rbac/rbac.service.ts:218-237 | Cascades the grants and drops all entries |
| `RbacServices.RbacService.AssignPermissionsToRole` | backend/src/modules/rbac/rbac.service.ts:242-295 | Afterwards the role has a permission if and only if its id, or where none are given its name, is among those sent; other roles keep theirs; a user with only that role has exactly those names; errors in order; all entries dropped |
| `RbacServices.RbacService.AssignRolesToUser` | backend/src/modules/rbac/rbac.service.ts:303-387 | Exactly which error, from who holds Super Admin, who would, and who else does; on success the user has exactly the roles sent, everybody else keeps theirs, and only that user's entry is dropped |
| `RbacServices.RbacService.RemoveRoleFromAdmin` | backend/src/modules/admin/admin.service.ts:2534-2588 | Exactly which of five errors, from the role rows; on success that one role of that one user is gone, and that user's entry dropped |
| `RbacServices.RbacService.SetUserStatus` | backend/src/modules/admin/admin.service.ts:948-1026 | Exactly which error under the admin-tier and last-active-Super-Admin guards; on success one status changes, and a user who is no longer active, and nobody else, loses tokens and live sessions |
| `RbacServices.RbacService.RemoveUser` | backend/src/modules/admin/admin.service.ts:1086-1210 | Exactly which error; on success the user goes with roles, tokens, sessions and cached entry, and nobody else loses any |
| `RbacServices.RbacService.RemoveOwnAccount` | backend/src/modules/auth/auth.service.ts:847-910 | Deletes the account with its roles, tokens and sessions, with no role guard and no invalidation; the cache stays coherent if and only if nothing was cached for it |
| `PermissionCache.UnannouncedExactly` | backend/src/modules/rbac/rbac.service.ts:19-387 | A single write changes the permissions of somebody its call does not invalidate if and only if it inserts grants for a role they hold by then, one of them new to them, or deletes their own account |
| `PermissionCache.StepKeepsInvExactly` | backend/src/shared/utils/permissionCache.ts:12-99 | Check, write, `createRole`'s lookup and late grants, listing and deleting keys, failures, and the two halves of a load as separate steps: a step keeps "stale only while an invalidation is to come" if and only if it is no unannounced write that meets a cached or loading user, and leaves nothing stale behind that only a listing, deletion or failed invalidation would have reached |
| `PermissionCache.LateGrantBreaksExactly` | backend/src/modules/rbac/rbac.service.ts:27-34 | The late grants break it if and only if they are inserted while somebody who is cached or being loaded holds the role, has no invalidation to come, and lacks one of the permissions |
| `PermissionCache.StaleOnlyWhilePending` | backend/src/shared/utils/permissionCache.ts:12-99 | In every run without such a step a cached entry that differs from the live join has an invalidation to come that reaches it, and with none pending every entry is the live join |
| `PermissionCache.NoOverlapIsEnough` | backend/src/shared/utils/permissionCache.ts:74-99 | Nobody is assigned a role before its `createRole` has returned, no invalidation fails or lists or deletes keys during a load of a user it reaches, and nobody who is cached or being loaded deletes their own account: that is enough for each step |
| `PermissionCache.CoherentWithoutOverlap` | backend/src/shared/utils/permissionCache.ts:12-99 | Over every run that keeps to that, calls otherwise overlapping in any way: an entry is stale only while an invalidation that reaches it is to come |
| `PermissionCache.FailedInvalidationLeavesStaleEntry` | backend/src/shared/utils/permissionCache.ts:74-99 | A failed invalidation, which is logged and swallowed, leaves a stale entry with nothing pending |
| `PermissionCache.OvertakenLoadLeavesStaleEntry` | backend/src/shared/utils/permissionCache.ts:29-69 | An invalidation that overtakes a stale load leaves that user with a stale entry and nothing pending |
| `PermissionCache.RaceLeavesStaleEntry` | backend/src/shared/utils/permissionCache.ts:27-69 | For every call that changes somebody's permissions there is a run, from an empty cache, that ends with that user's old permissions cached and nothing pending |
| `PermissionCache.SomeCallChangesPermissions` | backend/src/modules/rbac/rbac.service.ts:242-295 | Such a call exists: emptying a role's permissions |
| `PermissionCache.GrantAfterAssignment` | backend/src/modules/rbac/rbac.service.ts:25-51 | For any `createRole` and any assignment of the new role before its grants are inserted: a run in which nothing fails and the assignment's own invalidation completes, and the user's entry lacks what the grants then give, with nothing to come |
| `PermissionCache.DeletingExactly` | backend/src/shared/utils/permissionCache.ts:74-94 | Deleting keys removes exactly the entries it reaches |
| `PermissionCache.LoadingExactly` | backend/src/shared/utils/permissionCache.ts:29-69 | A load stores the join as it was when it read, and nothing else changes |
| `PermissionCache.LookingStartsExactly` | backend/src/modules/rbac/rbac.service.ts:19-352 | A call goes on to write if and only if it passes its guards |
| `SuperAdmin.KeepsASuperAdminExactly` | backend/src/modules/rbac/rbac.service.ts:303-352 | For a call that nothing overlaps: a platform with a Super Admin keeps one if and only if the call neither renames the role nor is the last Super Admin deleting their own account |
| `SuperAdmin.EveryRunKeepsASuperAdmin` | backend/src/modules/rbac/rbac.service.ts:117-352 | Over every run of the twelve calls, none overlapping, in which no call does that, a Super Admin remains |
| `SuperAdmin.KeepsAnActiveSuperAdminExactly` | backend/src/modules/admin/admin.service.ts:988-1002 | The same for an active Super Admin: the calls that take the role from the only active holder, or that holder's account, are exactly those that leave none |
| `SuperAdmin.EveryRunKeepsAnActiveSuperAdmin` | backend/src/modules/admin/admin.service.ts:948-2588 | Over every run of non-overlapping calls in which no call does that, an active Super Admin remains |
| `SuperAdmin.StatusChangesKeepAnActiveSuperAdmin` | backend/src/modules/admin/admin.service.ts:988-1002 | Any number of status changes, none overlapping, never leaves the platform without an active Super Admin |
| `SuperAdmin.LastActiveSuperAdminCanBeRemoved` | backend/src/modules/admin/admin.service.ts:2559-2574 | The guard of `removeAdminRole` counts suspended holders, so the only active Super Admin can lose the role |
| `SuperAdmin.RenamedAway` | backend/src/modules/rbac/rbac.service.ts:85-115 | `updateRole` has no system-role guard: renaming the Super Admin role leaves no Super Admin |
| `SuperAdmin.OthersLeaveTheTierAlone` | backend/src/modules/rbac/rbac.service.ts:330-334 | An operator who is not a Super Admin neither makes nor unmakes one, and changes no status or account in the admin tier |
| `SuperAdmin.OthersNeverMakeASuperAdmin` | backend/src/modules/admin/admin.service.ts:948-2588 | Over any run of such operators' calls the Super Admins stay exactly who they are |
| `SuperAdminSteps.HoldersAfter` | backend/src/modules/rbac/rbac.service.ts:354-359 | Who still holds the role after any write, taken on whatever tables it meets |
| `SuperAdminSteps.WriteKeepsASuperAdminExactly` | backend/src/modules/rbac/rbac.service.ts:330-359 | Whatever a call saw when it passed its guards, its write leaves a Super Admin if and only if it does not take the role from everyone who holds it by then |
| `SuperAdminSteps.StaleRemovalExactly` | backend/src/modules/admin/admin.service.ts:2559-2585 | A stale removal keeps a Super Admin if and only if another one holds the role when it is written |
| `SuperAdminSteps.WriteKeepsAnActiveSuperAdminExactly` | backend/src/modules/admin/admin.service.ts:988-1007 | The same for active Super Admins, status changes included |
| `SuperAdminSteps.InterleavedRunsKeepASuperAdmin` | backend/src/modules/admin/admin.service.ts:948-2588 | Over every interleaving in which no write does that, a Super Admin remains |
| `SuperAdminSteps.InterleavedRunsKeepAnActiveSuperAdmin` | backend/src/modules/admin/admin.service.ts:948-2588 | And an active one |
| `SuperAdminSteps.GuardsHoldWhileNobodyLosesIt` | backend/src/modules/rbac/rbac.service.ts:330-359 | If nobody has lost the role since a call looked and the role has kept its name, the call's write leaves a Super Admin, whatever else changed, unless it renames the role or is the last one leaving |
| `SuperAdminSteps.ActiveGuardsHoldWhileNobodyLosesIt` | backend/src/modules/admin/admin.service.ts:988-1007 | The same for active holders |
| `SuperAdminSteps.UndisturbedRunsKeepASuperAdmin` | backend/src/modules/admin/admin.service.ts:948-2588 | Over every interleaving in which nobody loses the role between another call's look and its write, and no call renames it or is the last one leaving, a Super Admin remains |
| `SuperAdminSteps.UndisturbedRunsKeepAnActiveSuperAdmin` | backend/src/modules/admin/admin.service.ts:948-2588 | And an active one, when no active holder is lost in between and no call takes the role or the account of the only one |
| `SuperAdminSteps.TwoRemovalsLeaveNobody` | backend/src/modules/admin/admin.service.ts:2559-2585 | With two Super Admins, two overlapping removals both pass their guard and leave none |
| `SuperAdminSteps.TwoSuspensionsLeaveNobodyActive` | backend/src/modules/admin/admin.service.ts:988-1007 | Two overlapping suspensions of the only two active Super Admins leave none active |
| `Applications.AllowedExactly` | backend/src/modules/recruiter/recruiter.service.ts:22-61 | `getAllowedTransitions` in closed form: strictly forward or Rejected, an interview may be rescheduled, Hired only from an interview or an offer, nothing from a terminal state |
| `Applications.AllowedTable` | backend/src/modules/recruiter/recruiter.service.ts:22-61 | The same, stage by stage |
| `Applications.HiringService.ApplyToJob` | backend/src/modules/candidate/candidate.service.ts:403-500 | Which of four errors, or a new row, or the first withdrawn row of the pair reset with its history kept; nothing else changes |
| `Applications.HiringService.WriteFirstPart` | backend/src/modules/recruiter/recruiter.service.ts:1261-1275 | The first of two database calls: the row has one interview more, or none; every other field of it and every other row is as before |
| `Applications.HiringService.WriteLastPart` | backend/src/modules/recruiter/recruiter.service.ts:1277-1289 | The row update: the new status is the one new history entry, interviews and every other row stay, offer data changes only with a release or a reset |
| `Applications.HiringService.WithdrawApplication` | backend/src/modules/candidate/candidate.service.ts:564-622 | Only the candidate's own application, from which states, and what is written |
| `Applications.HiringService.ProgressApplicant` | backend/src/modules/recruiter/recruiter.service.ts:1096-1203 | Exactly which error: Forbidden if and only if the job is not the recruiter's company's, then terminal, structured and forbidden status changes; on success one status and one history entry |
| `Applications.HiringService.ScheduleInterview` | backend/src/modules/recruiter/recruiter.service.ts:1208-1319 | Exactly which error, company first; on success an interview (60 minutes by default), the status and its history entry |
| `Applications.HiringService.ReleaseOffer` | backend/src/modules/recruiter/recruiter.service.ts:1324-1424 | Exactly which error, company first; on success the offer fields and the status; letter fields only replaced when a letter was uploaded |
| `ApplicationTraces.OneCallKeepsInv` | backend/src/modules/recruiter/recruiter.service.ts:1096-1424 | Every call of either service keeps one row per pair, a legal history, and offer and interview data in step with the current cycle |
| `ApplicationTraces.EveryRunKeepsInv` | backend/src/modules/recruiter/recruiter.service.ts:1096-1424 | So does every run, whatever the callers and the other tables do |
| `ApplicationTraces.ReachableTables` | backend/src/modules/candidate/candidate.service.ts:403-622 | What that means in every reachable table: status is the last entry, rank never falls within a cycle, terminal states are final but Withdrawn to Applied, Hired directly follows an interview or offer, offer data if and only if the cycle has its single OfferReleased, one interview row per InterviewScheduled |
| `ApplicationTraces.RankNeverFalls` | backend/src/modules/recruiter/recruiter.service.ts:22-61 | Within a cycle the pipeline never runs backwards |
| `ApplicationTraces.TerminalStatesAreFinal` | backend/src/modules/recruiter/recruiter.service.ts:31-40 | Hired and Rejected end a history, Withdrawn is only followed by Applied |
| `ApplicationTraces.HiredFollowsInterviewOrOffer` | backend/src/modules/recruiter/recruiter.service.ts:41-61 | The entry right before Hired is an interview or an offer |
| `ApplicationTraces.OfferIsNextToLast` | backend/src/modules/recruiter/recruiter.service.ts:1347-1395 | After an offer comes at most one entry, Hired or Rejected |
| `ApplicationTraces.InCycleExactly` | backend/src/modules/candidate/candidate.service.ts:424-455 | A status is in the current cycle if and only if it was entered with no withdrawal since |
| `ApplicationTraces.WriteKeepsGoodExactly` | backend/src/modules/recruiter/recruiter.service.ts:1163-1395 | Exactly which whole writes keep a row consistent, given only the row they meet |
| `ApplicationTraces.LastPartExactly` | backend/src/modules/recruiter/recruiter.service.ts:1277-1289 | The row update of any write keeps history, status and offer data consistent if and only if the row it meets allows the step, and exactly how it changes the number of interviews the cycle calls for |
| `ApplicationTraces.ReapplyClearsNoOffer` | backend/src/modules/candidate/candidate.service.ts:434-453 | The offer fields that a reapply clears are always empty already |
| `ApplicationTraces.OfferIsKept` | backend/src/modules/recruiter/recruiter.service.ts:1361-1395 | A released offer survives every later call unchanged |
| `ApplicationTraces.HistoryOnlyGrows` | backend/src/modules/candidate/candidate.service.ts:424-485 | No call removes or rewrites a history entry or a row |
| `ApplicationTraces.EveryChangeIsEntitled` | backend/src/modules/recruiter/recruiter.service.ts:1110-1124 | Over every run, each change of a row is made by its own candidate or by a recruiter of the company that owns the job |
| `ApplicationTraces.EveryLegalStepIsPossible` | backend/src/modules/recruiter/recruiter.service.ts:22-61 | A status change is legal if and only if some caller can make it, so the step relation is exact |
| `ApplicationSteps.CheckedWriteIsFromSomeCall` | backend/src/modules/recruiter/recruiter.service.ts:1127-1159 | What any call can decide to write: never a bare structured status, and an offer letter's two fields together |
| `ApplicationSteps.StepKeepsInvExactly` | backend/src/modules/recruiter/recruiter.service.ts:1240-1289 | Calls as single database calls that interleave, fail half-way, or lose their row: a step keeps the tables consistent if and only if the row it meets still allows the status, and it neither deletes interviews that a half-done or running cycle needs, nor abandons an inserted one, nor strands old ones |
| `ApplicationSteps.FirstPartFitsExactly` | backend/src/modules/candidate/candidate.service.ts:434-436 | Exactly when deleting, or inserting, interview rows keeps the row consistent with the half-done calls on it |
| `ApplicationSteps.LastPartFitsExactly` | backend/src/modules/recruiter/recruiter.service.ts:1277-1289 | Exactly when the second database call does |
| `ApplicationSteps.InterleavedRunsKeepInv` | backend/src/modules/recruiter/recruiter.service.ts:1096-1424 | Over every interleaving from an empty table in which no step goes wrong, all application invariants hold whenever no call is running |
| `ApplicationSteps.UninterruptedCall` | backend/src/modules/recruiter/recruiter.service.ts:1240-1289 | Nothing in between: the single steps add up to the whole call |
| `ApplicationSteps.LocksAreEnough` | backend/src/modules/candidate/candidate.service.ts:424-485 | If every call held its row, or its candidate and job, until its last database call, no interleaving would go wrong |
| `ApplicationSteps.ScheduledWithoutInterview` | backend/src/modules/recruiter/recruiter.service.ts:1261-1289 | A run with a withdrawal and a reapply between the two database calls of scheduling: every status change is allowed, and the row ends at InterviewScheduled with no interview |
| `ApplicationSteps.WithdrawnThenShortlisted` | backend/src/modules/recruiter/recruiter.service.ts:1127-1169 | A withdrawal between a recruiter's check and write leaves the history ... Withdrawn, Shortlisted |
| `ApplicationSteps.LateCreateExactly` | backend/src/modules/candidate/candidate.service.ts:424-485 | A late create keeps one row per pair if and only if no row for the pair has appeared since the check |
| `JobModeration.OnlyAdminsOpenTheGate` | backend/src/modules/admin/admin.service.ts:849-901 | A call that nothing overlaps brings a job into {approved, paused} if and only if it is an admin approving, pausing or resuming it |
| `JobModeration.LiveJobsWereOpened` | backend/src/modules/admin/admin.service.ts:849-901 | Over every run of non-overlapping calls, a live job has such an admin call after the last time it was not live |
| `JobModeration.ListedJobsPassedTheGate` | backend/src/modules/candidate/candidate.service.ts:632-635 | So has every job a candidate can list |
| `JobModeration.ListedJobsWereApproved` | backend/src/modules/candidate/candidate.service.ts:632-635 | If admins only pause live jobs and calls do not overlap, every listed job was approved or resumed by an admin |
| `JobModeration.PauseThenResumePublishes` | backend/src/modules/recruiter/recruiter.service.ts:953-977 | An admin's pause on a job in any state lets its recruiter publish it, listed if and only if it is visible |
| `JobModeration.RecruitersAloneNeverList` | backend/src/modules/recruiter/recruiter.service.ts:957-990 | Recruiter, scheduler, suspension and deletion calls alone, none overlapping, never list a job that is not live |
| `JobModeration.OnlyTheseShowAJob` | backend/src/modules/admin/admin.service.ts:849-880 | A hidden job becomes visible if and only if an admin unhides or approves it, or it is approved and its company's jobs are shown again |
| `JobModeration.HiddenUntilShown` | backend/src/modules/admin/admin.service.ts:857-866 | Over every run, a job an admin hid is not listed until one of those calls |
| `JobModeration.OwnersAndCompanies` | backend/src/modules/admin/admin.service.ts:1170-1185 | Row by row, what archiving, deleting, reporting, and a company's suspension or deletion do |
| `JobModerationSteps.UninterruptedCall` | backend/src/modules/admin/admin.service.ts:838-901 | Read and write taken apart: a call that nothing interrupts writes what the whole call does |
| `JobModerationSteps.WriteOpensGateExactly` | backend/src/modules/admin/admin.service.ts:845-901 | A write opens the gate on a job that is not live if and only if it is an admin's approve, pause or resume, or carries back a live status its call read before |
| `JobModerationSteps.InterleavedListedJobsPassedTheGate` | backend/src/modules/candidate/candidate.service.ts:632-635 | Over every interleaving without such a carried-back status, a listed job has had an admin's approve, pause or resume take effect and has been live since |
| `JobModerationSteps.InterleavedListedJobsWereApproved` | backend/src/modules/candidate/candidate.service.ts:632-635 | And an approve or admin's resume, if no pause takes effect on a job that is not live |
| `JobModerationSteps.UnchangedSinceLookDoesNotBypass` | backend/src/modules/recruiter/recruiter.service.ts:945-990 | A call whose job nobody wrote between its read and its write carries nothing back |
| `JobModerationSteps.FeatureUndoesReject` | backend/src/modules/admin/admin.service.ts:845-901 | An admin's "feature", read before another admin's "reject" and written after it, lists the rejected job again |
| `JobModerationSteps.ResumeUndoesReject` | backend/src/modules/recruiter/recruiter.service.ts:945-990 | A recruiter's "resume", read while the job was paused, takes a job rejected meanwhile to approved |
| `JobModeration.JobBoard.Post` | backend/src/modules/recruiter/recruiter.service.ts:649-733 | Draft or pending approval only, visible, for a recruiter of an approved company |
| `JobModeration.JobBoard.Update` | backend/src/modules/recruiter/recruiter.service.ts:805-885 | The status only changes to one the validator admits |
| `JobModeration.JobBoard.Duplicate` | backend/src/modules/recruiter/recruiter.service.ts:887-942 | A copy is a visible draft of the same company |
| `JobModeration.JobBoard.LifecycleJob` | backend/src/modules/recruiter/recruiter.service.ts:944-1002 | The four actions with their source states, and the errors |
| `JobModeration.JobBoard.ModerateJob` | backend/src/modules/admin/admin.service.ts:827-896 | Column by column, which of the ten actions set status, visibility and the featured flag, and to what; an unknown one changes nothing |
| `JobModeration.JobBoard.ExpireOverdue` | backend/src/shared/queue/queue.ts:291-309 | The loop closes and hides exactly the overdue jobs that are approved or pending |
| `CompanySuspension.CompanyModeration.SuspendCompany` | backend/src/modules/admin/admin.service.ts:537-597 | Row by row in all six tables: exactly the company's active recruiters are suspended, logged out and dropped from the cache, and its approved jobs hidden; two errors |
| `CompanySuspension.CompanyModeration.UnsuspendCompany` | backend/src/modules/admin/admin.service.ts:606-660 | The same for the way back; no token or session comes back |
| `CompanySuspension.SuspendShutsDown` | backend/src/modules/admin/admin.service.ts:550-570 | Afterwards the company has no active recruiter, no visible approved job, and nobody it suspended keeps a token or a session |
| `CompanySuspension.SuspensionIsScoped` | backend/src/modules/admin/admin.service.ts:537-635 | Neither call touches other companies, their people, tokens and sessions, accounts of another status, or other jobs |
| `CompanySuspension.SuspendAgain` | backend/src/modules/admin/admin.service.ts:537-635 | Suspend, unsuspend, suspend gives what one suspend gives |
| `CompanySuspension.UnsuspendUndoesExactly` | backend/src/modules/admin/admin.service.ts:606-635 | Unsuspending undoes a suspension if and only if the company was approved, no recruiter was already suspended and no approved job was already hidden |
| `EventBuses.EventBus.Subscribe` | backend/src/shared/eventBus/eventBus.ts:12-18 | Handlers are a set in subscription order |
| `EventBuses.EventBus.Unsubscribe` | backend/src/shared/eventBus/eventBus.ts:23-29 | Removes exactly that handler; the others keep their order |
| `EventBuses.EventBus.Publish` | backend/src/shared/eventBus/eventBus.ts:35-58 | Every subscriber is called, in subscription order, throwing ones included, and with none nothing happens; counted, there is one call for each subscriber of the event and of each event the calls publish at once, and one promise for each asynchronous call; terminates on a ranked bus |
| `EventBuses.EventBus.AllSettled` | backend/src/shared/eventBus/eventBus.ts:63-67 | Terminates in whatever order promises proceed and whatever finitely many events other code publishes meanwhile; on return none is in flight and every promise ever created has settled; counted, there is one call for each subscriber of what the promises had still to publish, of the events that came, and of everything the calls themselves publish, at once or later |
| `Handlers.PublishingConserves` | backend/src/shared/eventBus/eventBus.ts:35-58 | Calls made at once plus calls left in promises are all calls; nothing is lost or doubled |
| `CallFlow.PublishingFlows` | backend/src/shared/eventBus/eventBus.ts:35-58 | The recursion of nested publishes agrees with that count of subscribers |
| `CallFlow.HandlersInOrder` | backend/src/shared/eventBus/eventBus.ts:39-55 | And with the subscription order |
| `CallFlow.CausedIsClosed` | backend/src/shared/eventBus/eventBus.ts:35-67 | So whatever a call publishes, each of its subscribers is among the calls |
| `EventBuses.StretchRun` | backend/src/shared/eventBus/eventBus.ts:63-67 | One stretch of one in-flight handler conserves the calls still to come and uses up one turn |
| `Listeners.HandlersPublishTheirNames` | backend/src/shared/listeners/notification.listener.ts:83-966 | A handler made of waits, publishes and try/catch, nested in any way, publishes only under the names in its body, however its waits go and whatever throws |
| `Listeners.LevelledTablesHaveARank` | backend/src/shared/eventBus/eventBus.ts:35-67 | If every name a handler publishes under has a lower level than the name it listens to, any bus that runs these handlers has a rank, so publishing and draining end |
| `Listeners.ListenersPublishOnlyAudits` | backend/src/shared/listeners/notification.listener.ts:83-966 | Handler by handler, the three listeners publish nothing but the audit event, and nothing in answer to it |
| `Listeners.AuditLostExactly` | backend/src/shared/listeners/notification.listener.ts:302-320 | An asynchronous handler loses its audit event if and only if it notifies first and the notification fails; its promise rejects if and only if the notification fails and the handler does not catch |
| `Listeners.AuditLostEventByEvent` | backend/src/shared/listeners/notification.listener.ts:83-790 | Which six events lose their audit record when the notification fails; the other recorded ones never do |
| `Listeners.ListenersHaveARank` | backend/src/shared/listeners/audit.listener.ts:5-10 | So any bus made of them drains |
| `Listeners.SelfPublishingHasNoRank` | backend/src/shared/eventBus/eventBus.ts:35-58 | A handler that answers an event with the same event fits no rank |
| `TokenRefresh.StepKeepsClientOk` | frontend/src/api/client.ts:24-79 | Every step of client, network and server keeps the client protocol |
| `TokenRefresh.ClientProtocol` | frontend/src/api/client.ts:24-170 | In every interleaving: at most one refresh POST, at most two fetches per request, at most one session-expired event, and nobody waits for a promise that is gone |
| `TokenRefresh.SameOutcomeForAll` | frontend/src/api/client.ts:33-79 | All requests that wait for one refresh see the same outcome |
| `TokenRefresh.ExpiredOnlyAfterFailure` | frontend/src/api/client.ts:95-108 | Over every interleaving the session is reported expired only if a refresh has failed |
| `TokenRefresh.RetriedOnlyAfterRefresh` | frontend/src/api/client.ts:161-165 | A request is sent a second time only after it waited for a refresh that worked, for which the server had issued a token |
| `TokenRotation.StepKeepsInv` | backend/src/modules/auth/auth.service.ts:609-631 | Every step but sending a live token while an earlier exchange may still go through keeps the rotation invariant |
| `TokenRotation.RotationIsSafe` | backend/src/modules/auth/auth.service.ts:609-631 | In every run without such a send no token is exchanged twice and at most one token is live |
| `TokenRotation.LostResponsesAreSafe` | frontend/src/api/client.ts:36-76 | Runs with lost responses are safe unless a connection fails while the server may still exchange the token |
| `TokenRotation.OverlapExchangesTwice` | backend/src/modules/auth/auth.service.ts:609-631 | Conversely, from every state the invariant allows in which a live token is sent over such an exchange, a run exchanges the token twice |
| `TokenRotation.SendIsSafeExactly` | backend/src/modules/auth/auth.service.ts:609-631 | So a step leaves rotation safe, whatever the server then does, if and only if it is not such a send |
| `TokenRotation.EarlyFailureExchangesTwice` | backend/src/modules/auth/auth.service.ts:609-631 | Such a run exists from every page load with a live session: the first refresh's connection fails early and a second request refreshes again |
| `TokenRotation.RefreshThenRetry` | frontend/src/api/client.ts:32-77 | From any page load with a live cookie there is a run in which the 401 is followed by a refresh and a second fetch, with the new token the only live one |
| `TokenRotation.RefreshRefused` | frontend/src/api/client.ts:161-170 | And one in which the refresh is refused, the request ends and the session is over |
| `TokenServices.ApiClient.TryRefreshToken` | frontend/src/api/client.ts:33-79 | The promise in flight, or a new one; either way exactly one POST is running, the returned promise's, and the client protocol holds |
| `TokenServices.ApiClient.OnResponse` | frontend/src/api/client.ts:161-170 | A first attempt answered 401 outside the authentication endpoints waits for the refresh in flight or a new one; anything else ends the request; nothing else changes |
| `TokenServices.ApiClient.OnAnswer` | frontend/src/api/client.ts:36-44 | The answer brings the new cookie or none, and nothing else changes |
| `TokenServices.ApiClient.OnRefreshDone` | frontend/src/api/client.ts:73-75 | Nothing is in flight any more, everyone who waits has an outcome, and those who had none have this one; protocol kept |
| `TokenServices.ApiClient.HandleSessionExpired` | frontend/src/api/client.ts:95-109 | However often it is called, the event has then fired exactly once; protocol kept |
| `TokenServices.ApiClient.OnRefreshed` | frontend/src/api/client.ts:161-170 | After a refresh that worked the request is sent once more and the session goes on; after one that failed it is over and the expiry event has fired once |
| `TokenServices.AuthServer.ReceiveRefresh` | backend/src/modules/auth/auth.service.ts:609-610 | A refresh request arrives; rotation stays in order unless it brings a live token while an earlier exchange may still go through |
| `TokenServices.AuthServer.FindRefreshToken` | backend/src/modules/auth/auth.repository.ts:323-327 | A refresh passes only with a live token; rotation stays in order |
| `TokenServices.AuthServer.RevokeRefreshToken` | backend/src/modules/auth/auth.repository.ts:329-334 | If rotation was in order it stays so, and then no token is live |
| `TokenServices.AuthServer.CreateAuthSession` | backend/src/modules/auth/auth.service.ts:524-561 | If rotation was in order it stays so, and the new token, if the account may log in, is the only live one |
| `TokenServices.AuthServer.Logout` | backend/src/modules/auth/auth.service.ts:633-636 | Afterwards the token can only be exchanged by a request that has already passed its check; rotation stays in order |
| `BudgetGuard.GlobalBudget.Guard` | k6-load-tests/shared/helpers.js:97-118 | How a call counts, when it rolls the window over, when it sleeps and how long; the counter's bounds and the window spacing |
| `BudgetGuard.EveryRunIsBounded` | k6-load-tests/shared/helpers.js:99-119 | Over every run with a non-decreasing clock: counter within the budget, window starts apart, and at most twice the budget in any span of one window length |
| `BudgetGuard.SlidingWindowBound` | k6-load-tests/shared/helpers.js:103-118 | The sliding-window bound, from the history invariant |
| `BudgetGuard.SlidingWindowBoundIsTight` | k6-load-tests/shared/helpers.js:103-118 | Some run reaches that bound |
| `BudgetGuard.CounterWithinBudgetExactly` | k6-load-tests/shared/helpers.js:107-118 | The counter stays within `max - 5` after every call if and only if `max` is above 5 |
| `BudgetGuard.NewStart` | k6-load-tests/shared/helpers.js:103-116 | At most one new window per call, starting more than one window length after the last |
| `Cookies.ParseCookies` | backend/src/app.ts:103-118 | The middleware's loop, with its failure on malformed percent-encoding, computes `ParsedHeader` |
| `Cookies.PieceExactly` | backend/src/app.ts:105-116 | Of one piece, the name is before the first equals sign, the value up to the next one; empty names and values are ignored, and a malformed value fails the whole header |
| `Cookies.FailsExactly` | backend/src/app.ts:107-114 | The middleware throws if and only if the value of some piece does not decode |
| `Cookies.ParsePrint` | backend/src/app.ts:103-118 | Parsing a printed cookie list gives the last binding of every name over exactly the pairs the parser keeps |
| `Cookies.ParsePrintExactly` | backend/src/app.ts:103-118 | For trimmed non-empty names and non-empty values the round trip holds if and only if no cookie is called `__proto__` |
| `Cookies.LastBindingWins` | backend/src/app.ts:112-114 | The map that comes back has, for each name, the value of its last pair |
| `PercentCoding.DecodeEncode` | backend/src/app.ts:113 | `decodeURIComponent` undoes `encodeURIComponent` on every text |
| `PercentCoding.DecodeExactly` | backend/src/app.ts:113 | A text decodes to another if and only if it spells it piece by piece, each piece a character or its shortest UTF-8 bytes as percent signs and hexadecimal digits; anything else is malformed |
| `PercentCoding.Utf8RoundTrip` | backend/src/app.ts:113 | Every Unicode scalar value survives its UTF-8 bytes, and its first byte announces their number |
| `Matching.FindMatchedCandidateUserIds` | backend/src/shared/listeners/notification.listener.ts:1013-1051 | No repeats; as many users as match, up to a hundred; all active and matching; all of them when at most a hundred; and none by location alone while a match by skill is missing |
| `Matching.FindBySkill` | backend/src/shared/listeners/notification.listener.ts:1016-1030 | Exactly the active users with one of the job's skills |
| `Matching.AddByLocation` | backend/src/shared/listeners/notification.listener.ts:1032-1048 | Adds exactly the active users with a matching place, after the others |
| `Matching.NoMatchIsFilteredOut` | backend/src/shared/listeners/notification.listener.ts:1032-1044 | The database filter, the skipped empty location and the dropped empty texts lose no match |
| `Matching.LocationsMatchExactly` | backend/src/shared/listeners/notification.listener.ts:989-998 | Matching is symmetric: neither text empty, and the shorter occurs in the longer |
| `Matching.MatchesExactly` | backend/src/shared/listeners/notification.listener.ts:1016-1048 | Who matches, table by table: an active user with a skill of the job, or with a location or a preferred location that matches |
| `Matching.CaseIgnored` | backend/src/shared/listeners/notification.listener.ts:989-991 | Spellings that lower-casing hides make no difference |
| `Matching.OuterSpaceIgnored` | backend/src/shared/listeners/notification.listener.ts:989-991 | White space around a location makes no difference |
| `Notifications.EveryRunKeepsKeysUnique` | backend/src/shared/listeners/notification.listener.ts:14-81 | Over any sequence of events, with users and active admins changing in between: one row per dedupe key, rows and emits only appended to, and exactly one emit per row created |
| `Notifications.AllCreatedGrows` | backend/src/shared/listeners/notification.listener.ts:29-48 | The same for any interleaving of single creations, whichever handlers they come from |
| `Notifications.CreatesExactlyTheNew` | backend/src/shared/listeners/notification.listener.ts:14-81 | A group of creations with distinct keys creates and emits exactly those whose key is free and whose recipient exists |
| `Notifications.ReplayDoesNothing` | backend/src/shared/listeners/notification.listener.ts:29-81 | Handling the same keyed recipients again at once changes nothing, even where the first attempt stopped half-way at a missing recipient |
| `Notifications.ImmediateRepeatDoesNothing` | backend/src/shared/listeners/notification.listener.ts:576-760 | So does publishing an interview, status-change, job-submission or job-approval event twice in a row |
| `Notifications.RepeatedEventDoesNothing` | backend/src/shared/listeners/notification.listener.ts:576-760 | After such an event's handler went through, any events, users and admins coming and going in between: the event published again for the same or fewer admins and matches creates and emits nothing, whatever its texts |
| `Notifications.RepeatedEventResumes` | backend/src/shared/listeners/notification.listener.ts:576-760 | If the handler stopped half-way, the repeated event goes on with the group in which it stopped, and earlier recipients get nothing |
| `Notifications.ResumedGroupCreatesTheNew` | backend/src/shared/listeners/notification.listener.ts:29-81 | In that group exactly the recipients who exist by then and whose key is still free are notified |
| `Notifications.SecondApprovalExactly` | backend/src/shared/listeners/notification.listener.ts:726-762 | A job approved again, with other candidates matching by then, notifies exactly the matched ones whose key is free, none of whom the first approval matched, and not the owner |
| `Notifications.UnkeyedEventsRepeat` | backend/src/shared/listeners/notification.listener.ts:85-120 | An application-submitted or offer-released event creates something each time if and only if its first recipient exists |
| `Notifications.NotificationListener.CreateAndEmitNotification` | backend/src/shared/listeners/notification.listener.ts:14-48 | One row and one emit, unless the key is taken or the recipient does not exist; it throws only in the last case |
| `Notifications.NotificationListener.NotifyActiveAdmins` | backend/src/shared/listeners/notification.listener.ts:54-81 | Every active admin who exists has a row under their own key, every new row is such a one, with its emit |
| `Notifications.NotificationListener.OnInterviewScheduled` | backend/src/shared/listeners/notification.listener.ts:576-608 | For an interview: who is told what, under which key and link; the admins only if the first one was not refused |
| `Notifications.NotificationListener.OnApplicationSubmitted` | backend/src/shared/listeners/notification.listener.ts:85-111 | For a new application: who is told what, under which key and link; the admins only if the first one was not refused |
| `Notifications.NotificationListener.OnOfferReleased` | backend/src/shared/listeners/notification.listener.ts:620-651 | For an offer: who is told what, under which key and link; the admins only if the first one was not refused |
| `Notifications.NotificationListener.OnApplicationStatusChanged` | backend/src/shared/listeners/notification.listener.ts:662-709 | The title and text each of four statuses gets in the row it creates; nothing for others |
| `Notifications.NotificationListener.OnJobSubmittedForApproval` | backend/src/shared/listeners/notification.listener.ts:712-723 | Every active admin is told, under their own key |
| `Notifications.NotificationListener.OnJobApproved` | backend/src/shared/listeners/notification.listener.ts:726-762 | The owner is told first, then, unless that was refused, at most a hundred distinct matched candidates, each under their own key |
| `Pagination.AuditLogPage` | backend/src/modules/admin/admin.service.ts:2017-2097 | The page asked for, page 1 and limit 50 by default; with a positive limit pages 1 to `totalPages` joined are the whole list, the last not empty, and there is at least one; with a negative limit the end of the list; an error if and only if the skip is negative |
| `Pagination.JobPage` | backend/src/modules/candidate/candidate.service.ts:627-698 | The same with limit 10 by default, and with no page if and only if the list is empty |
| `Pagination.PagesJoinToList` | backend/src/modules/candidate/candidate.service.ts:628-698 | Pages 1 to `totalPages` joined are the list, for every limit of at least 1 |
| `Pagination.EachElementOnOnePage` | backend/src/modules/candidate/candidate.service.ts:628-698 | Position `i` is on page `p` if and only if `p` is `i / limit + 1` |
| `Pagination.LaterPagesAreEmpty` | backend/src/modules/candidate/candidate.service.ts:628-698 | Every later page is empty |
| `AuditTabs.HiddenFromEveryTab` | backend/src/modules/admin/admin.service.ts:2038-2065 | A row shows under no tab if and only if it has no entity and is neither RBAC nor SECURITY |
| `AuditTabs.UnderTwoTabs` | backend/src/modules/admin/admin.service.ts:2038-2065 | Exactly which rows show under two tabs |
| `AuditTabs.OneEntityTabs` | backend/src/modules/admin/admin.service.ts:2038-2047 | What the three tabs about one entity each show |
| `AuditTabs.SecurityTab` | backend/src/modules/admin/admin.service.ts:2048-2054 | What the Security Settings tab shows, under SQL's three-valued logic |
| `AuditTabs.UserTab` | backend/src/modules/admin/admin.service.ts:2055-2063 | What the User Management tab shows, NULL entities excluded |

## Left out

- Prisma, PostgreSQL, Redis, BullMQ, e-mail, Socket.IO, file storage and HTTP: only the table updates they
  cause are modelled; a failing insert, a foreign key or a lost response is a parameter or a step.
- Passwords, JWT signatures, token expiry and two-factor checks: one boolean parameter of
  `TokenServices.AuthServer.FindRefreshToken`.
- Text of the `flatten*` helpers and the queries behind the exports: `CsvExport.ExportAll` holds for any cells.
- JavaScript strings with lone surrogates: a Dafny `char` is a Unicode scalar value, so texts are the ones
  `encodeURIComponent` accepts. `toLowerCase` is a function parameter of the matcher.
- User registration and login, role assignment at registration, and company suspension or deletion when a
  recruiter also is a Super Admin: outside the Super Admin runs. The company and job calls of the two are
  separate models.
- Overlapping calls of company suspension.
- What a cache load reads is one consistent state of the tables, though the database client may fetch a nested
  read in several queries; a transaction's writes take effect together.
- Invitations that still point at a role when it is deleted, and users without a profile.
- RbacServices.RbacService.RemoveUser: whether other rows still refer to the user is a parameter; the choice
  between archiving and transferring a recruiter's jobs is not part of it (archiving is a call of `JobModeration`).
- Pagination.AuditLogPage: the text, date and operator filters, and the order of rows with equal timestamps, which
  may change between two pages, are not modelled.
- Pagination.JobPage: the same.
- Applications.HiringService.ApplyToJob: should a pair ever have two rows, `findFirst` is taken to find the one
  with the lower id; the source leaves the order open.
- CsvExport.ExportAll: rows are as wide as their headers, as the four queries build them.
- CsvExport.ExportRecoversExactly: for sections with plain headers and non-empty rows, the tables for which
  `Csv.RoundTripExactly` says the single table comes back.
- Matching.FindMatchedCandidateUserIds: asks of the lower-casing function only that it maps the empty text to itself.
- `EventBus.clearAll`, and handlers that subscribe or unsubscribe while an event is being published.
- The promise `publish` derives for logging and clean-up: its turns are one clean-up turn per promise.
- The order in which `Promise.all` completes: creations run in list order. Rows of one fan-out have distinct
  keys, so another order permutes rows.
- The 48-hour expiry of notifications, which frees their keys, and the notification handlers for support
  tickets, perks and company documents.
- Page reloads, `AuthContext.refreshSession` (a second refresh path that does not share the promise), cookies
  shared by two tabs, and request or response interceptors.
- Response fields, audit rows and real-time messages of the modelled calls.
- React components, validators other than the job status enumeration, dashboards and formatters: easy members.
