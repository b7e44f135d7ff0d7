# Refresh-token families and organization-scoped authorization

This project models two parts of the service and proves what they keep.

**Refresh tokens.** Login inserts the root of a token family, refresh rotates the live leaf, replaying a
superseded token walks the chain and tries to kill the leaf, and logout revokes without a guard. Requests
interleave at every database access: a state holds the committed rows, the clock, the log and, for each
request, its program point with its local snapshots (`AuthProtocol`). A run is any list of labels: begin a
request, let one request take its next step, let time pass, or change a user's active flag; the theorems
quantify over all of them. The repository and the service are also given as classes whose methods follow
the source statement by statement (`RefreshTokens`, `AuthWorkflows`), with what other requests commit in
between as an explicit parameter. A request run alone is proved to end as its workflow does; under
interference the parameter is shown to cover whatever other requests can do, and the rotation and the
logout write to end alike. For the walk under interference each form carries the same guarantees.

**Authorization.** Roles, role permissions, assignments (global or within an organization) and memberships
are tables with the constraints the schema declares (`Rbac`). `Requests` says what each service call does to
them and which permission gates it; `IamServices` has the classes that do it step by step. Requests are
served one after another.

**Audit.** One event record and one append-only repository serve both halves (`Audit`).

Files: `Common` (identifiers, counting), `TokenTable` (rows, writes, chains), `RefreshTokens` (the
repository), `AuthProtocol`, `AuthInvariants`, `Families` (refinement to abstract families), `Deeds` (which
request did what), `AuthTheorems`, `Grounds` (what each outcome rests on), `Conservation` (books),
`AuthWorkflows`, `Scenarios` (witness runs), `Audit`, `Rbac`, `PermissionQuery` (the join), `Requests`, `RbacTheorems`,
`IamServices`.

## Main results

- Family walk under interference: `ReuseKillsTheFamily`, `RevokeDescendants`; its exact reach: `VictimOfLeaf`, `FailsClosedExactly`, `ReplayAfterRotations`.
- Refinement of every interleaving to four actions on families: `StepRefines`, `RunRefines`; shape of chains: `ChainShape`.
- Every row has exactly one maker and every revoked row exactly one cause: `EveryRowIsReported`,
  `EveryRevocationHasItsCause`, `RevokedInOneWay`, `OutcomeIsWhatWasWritten`, `ConsumedAtMostOnce`.
- Expiry over whole runs, from both sides: `SlidingExpiry`, `FullLifetimeShuts`, `IssuedLivesFullLifetime`, `RootLivesFullLifetime`.
- Each decision was right in a state the request met: `OwnerCheckWasRight`, `InactiveOwnerNeverGranted`, `LoginCheckWasRight`.
- Truthful audit trail and balanced books: `RefreshAuditIsTruthful`, `FamilyRevokedOnce`, `AlwaysBalanced`, `LogAccountsForRows`.
- Interleaved programs and sequential workflows: `RefreshAgrees`, `LoginAgrees`, `LogoutAgrees` alone,
  `OthersAreWrites`, `RotateAgreesUnderInterference`, `LogoutAgreesUnderInterference` otherwise.
- The join with its DISTINCT and ORDER BY is the set definition: `GetPermissionsForUser`, `QueryIsExact`, `QueryExtendsGlobal`.
- The journal rebuilds the tables and the decisions: `JournalRebuildsTables`, `DecisionsFromTheLog`, `EveryEventWasAuthorized`.
- Gate, replies and listings, exactly: `GateExactly`, `AssignRoleExactly` and its fellows, `FilteredExactly`, `ListingIsRanked`.
- Tenants and privilege over all runs: `TenantIsolation`, `NoPrivilegeFromNowhere`, `SeededDatabaseDeniesAll`.

## Assumptions

- Committed reads: every repository read returns the currently committed row, and a guarded UPDATE and a
  commit are atomic (READ COMMITTED). The re-read at app/repositories/refresh_token_repository.py:228 needs
  this: a session that answers it with the row as it was first loaded makes the walk give up on a live
  family, as `StaleReReadWouldMissALiveFamily` shows.
- A token string, its hash and its row are identified: hashing is injective on issued tokens, and keys drawn
  by the database are fresh.
- The lifetime of a token is any configured number; the runs in `Scenarios` need it to be positive.
- One clock that never runs backwards. Each use of the clock is a step of its own.
- Events of one request are recorded when its step says so; no crash separates a write from its event.
- Timestamps of the log are strictly increasing where an order is claimed; for equal ones the source's order
  is not determined. String order is by code point.

## Where the code and its comments differ

- Anything still live in a reused family is killed, says app/domain/services/auth_service.py:281-283. But
  the walk spends one of its 25 iterations on every hop. `FailsClosedExactly` gives the exact condition:
  the leaf is at most 25 links away or was revoked before. `ReplayAfterRotations` has the runs: one login,
  n refreshes and a replay of the first token kill the live leaf for n up to 25, and leave it alive, while
  recording the family as already revoked, for every n from 26 on.
- A revoked row without a successor was revoked by a logout, says
  app/domain/services/auth_service.py:267-271. A leaf killed by a walk looks the same;
  `KilledLeafLooksLoggedOut` is a run in which one is presented and recorded as an ordinary revoked token.
  `RevokedInOneWay` and `RevokedMeansLoggedOutExactly`: it was ended by a logout if and only if no walk
  killed it.
- A token that reaches logout's write has no successor, says
  app/repositories/refresh_token_repository.py:88-92. A snapshot may be stale; `LogoutLandsMidChain` is a
  run in which the write hits a rotated row. `MidChainExactly`: it does so if and only if some refresh has
  won that token first. `OverwriteEvolves` and `LateOverwriteStutters` show that the chain takes no harm;
  `SecondLogoutIsLate` shows that the log may then hold more logouts than tokens revoked by logout.
- An IntegrityError of an insertion into user_roles is assumed to be a duplicate, not a foreign key violation, at
  app/repositories/user_role_repository.py:55-61. For a global assignment nothing has checked that the user
  exists. `AssignmentDuplicateReported` gives the exact condition; `UnknownUserReportedAsDuplicate` says
  that every unknown user meets that answer, `UnknownUserScenario` that an administrator gets it.

## Model

| member | source | states |
|---|---|---|
| `TokenTable.WriteEvolves` | app/repositories/refresh_token_repository.py:127-153 | Each write the repository can commit keeps every table sound (links join revoked rows to existing rows of the same owner, injectively, with expiry never decreasing) and only ever lets it evolve: links, owners and expiries are write-once, revocation and death are final |
| `TokenTable.RotateEvolves` | app/repositories/refresh_token_repository.py:99-156 | A committed rotation keeps links injective and owner-preserving, and a losing one changes nothing |
| `TokenTable.WriteRowByRow` | app/repositories/refresh_token_repository.py:48-156 | What each write leaves in each column of each row; in particular a rotation's child has the owner of its parent, the new expiry and neither revocation nor successor |
| `TokenTable.GuardWinsOnce` | app/repositories/refresh_token_repository.py:9-24 | After a guarded revocation of a row, whatever is committed in between, every later guarded revocation or rotation of that row loses and changes nothing |
| `TokenTable.OverwriteEvolves` | app/repositories/refresh_token_repository.py:76-97 | Logout's unguarded write keeps every link and every death, even on a row that was rotated after it was read |
| `TokenTable.SuccessorStable` | app/repositories/refresh_token_repository.py:174-182 | Whatever other requests commit, the k-th successor of a token never changes once it exists |
| `TokenTable.FamilyDeadStable` | app/repositories/refresh_token_repository.py:170-172 | A dead family stays dead in every later table |
| `TokenTable.LeafUnique` | app/repositories/refresh_token_repository.py:164-166 | A token has at most one leaf, at one distance |
| `TokenTable.AlongTheChain` | app/domain/services/auth_service.py:192-200 | Along any number of links the owner is the same and expiry never decreases |
| `RefreshTokens.VictimOfLeaf` | app/repositories/refresh_token_repository.py:192-241 | The exact reach of the walk run alone: the leaf dies when it is live and between 1 and 25 links away, otherwise there is no victim |
| `RefreshTokens.FailsClosedExactly` | app/repositories/refresh_token_repository.py:158-191 | The documented fail-closed promise holds if and only if the leaf is at most 25 links away or was revoked before |
| `RefreshTokens.RefreshTokenRepository.CreateRotationPair` | app/repositories/refresh_token_repository.py:99-156 | Guard, insertion and link happen together or not at all; a result is returned exactly when the row was unrevoked; then the child has the parent's owner and the expiry asked for, the parent keeps its other columns, and no other row changes |
| `RefreshTokens.RefreshTokenRepository.RevokeDescendants` | app/repositories/refresh_token_repository.py:158-241 | Under arbitrary writes by others before each database access: a reported leaf is the dead leaf of the presented token's own family within 25 links; no report means that the family is dead or the token has at least 26 successors; undisturbed, exactly the victim is revoked and nothing else changes |
| `AuthInvariants.KnowsStable` | app/domain/services/auth_service.py:139-322 | What a request has established about the table (its snapshots, its place in the chain, its verdict) cannot be invalidated by anything other requests commit |
| `AuthInvariants.AdvanceKnows` | app/domain/services/auth_service.py:139-322 | Each step of each request establishes what its next program point relies on; in particular after i iterations `next` is successor number i+1 of the presented token |
| `AuthInvariants.AdvanceTrail` | app/domain/services/auth_service.py:153-322 | The events a step records are exactly those its new program point must have to show |
| `AuthInvariants.Reachable` | app/domain/services/auth_service.py:91-322 | The invariant (sound table, bounded expiries, knowledge of every request, log equal to the trails of all requests) holds in every reachable state of every interleaving |
| `AuthInvariants.RunEvolves` | app/repositories/refresh_token_repository.py:99-241 | Over any further run links, owners and expiries are write-once and death is final |
| `Deeds.AlwaysExclusive` | app/repositories/refresh_token_repository.py:7-24 | In every reachable state no two requests have created the same token or revoked the same token |
| `Deeds.EveryRowIsReported` | app/repositories/refresh_token_repository.py:99-156 | No row is an orphan: exactly one login or refresh created it and reports it as its result |
| `Deeds.EveryRevocationHasItsCause` | app/repositories/refresh_token_repository.py:116-126 | Every revoked row was revoked by exactly one request; that request is a refresh that rotated it exactly when the row has a successor |
| `Deeds.RevokedInOneWay` | app/domain/services/auth_service.py:262-285 | A row is revoked if and only if it was rotated away, killed by a walk or ended by a logout; it has a successor if and only if it was rotated; without one it was killed or ended, never both |
| `Deeds.RevokedMeansLoggedOutExactly` | app/domain/services/auth_service.py:267-271 | A token refused as revoked was ended by a logout if and only if no walk killed it |
| `Deeds.MidChainExactly` | app/repositories/refresh_token_repository.py:88-94 | A logout's write hits a row with a successor if and only if some refresh has won that token before |
| `Deeds.OutcomeIsWhatWasWritten` | app/domain/services/auth_service.py:91-322 | Along any run each request has committed exactly the one write its outcome reports, with the reported effect at that moment: a rotation of the live presented token, a kill of the live reported leaf, a new root, a logout write that took a live token or was late; nothing for any rejection or lost race |
| `AuthTheorems.ConsumedAtMostOnce` | app/repositories/refresh_token_repository.py:116-126 | Over any run at most one refresh presenting a given token gets new tokens |
| `AuthTheorems.IssuedIsTheSuccessor` | app/repositories/refresh_token_repository.py:127-156 | The token a refresh issues is linked from the presented token and from no other, and belongs to the same user |
| `AuthTheorems.ReuseKillsTheFamily` | app/repositories/refresh_token_repository.py:158-241 | Once a refresh has detected reuse, then and in every later state the family of the presented token is dead or the token has at least 26 successors; a reported leaf is dead for good, within 25 links |
| `AuthTheorems.DeadFamilyIssuesNothing` | app/domain/services/auth_service.py:163-165 | A refresh that starts after a family died never gets to rotate any of its tokens |
| `AuthTheorems.RevokedBeforehand` | app/domain/services/auth_service.py:163-218 | A refresh that starts after its token was revoked never reaches the rotation |
| `AuthTheorems.RefreshAuditIsTruthful` | app/domain/services/auth_service.py:153-322 | A finished refresh recorded exactly one of rotated, rejected and reuse-detected, then family-revoked exactly when it killed a leaf; reuse-detected exactly when the row read had a successor; a claim that the family was already revoked is true or the family is more than 25 links long; the caller sees one answer for every failure |
| `AuthTheorems.FamilyRevokedOnce` | app/domain/services/auth_service.py:302-322 | No two family-revoked entries of the log concern one family |
| `AuthTheorems.SlidingExpiry` | app/domain/services/auth_service.py:167-200 | Expiry never decreases along a chain and never exceeds one lifetime from now; once the last token of a chain has expired, no refresh that begins from then on is granted for any token of that chain |
| `AuthTheorems.FullLifetimeShuts` | app/core/security.py:147-153 | Once a full lifetime has passed since some state, no refresh that begins from then on and presents a token that existed in that state is ever granted |
| `Grounds.IssuedLivesFullLifetime` | app/domain/services/auth_service.py:192-200 | A token issued by a refresh expires no earlier than a full lifetime after that refresh began, and no later than a full lifetime from now |
| `Grounds.RootLivesFullLifetime` | app/domain/services/auth_service.py:324-344 | The same for the root of a login, from any state before it began |
| `Grounds.OwnerCheckWasRight` | app/domain/services/auth_service.py:175-190 | A refresh that was granted, or lost its rotation, met a state after it began in which the owner existed and was active; one refused for its owner met a state in which the owner did not exist or was not |
| `Grounds.InactiveOwnerNeverGranted` | app/domain/services/auth_service.py:177-190 | While a user is absent or inactive no refresh that begins then is granted for a token of that user |
| `Grounds.LoginCheckWasRight` | app/domain/services/auth_service.py:91-126 | A login met a state in which exactly the check it reports was the first to fail, in the order existence, activity, password; a successful one met a state in which none failed |
| `Grounds.RevocationIsDated` | app/repositories/refresh_token_repository.py:94-131 | A row that was not revoked in some state and is in a later one carries an instant from between the two |
| `Grounds.RefreshRecords` | app/domain/services/auth_service.py:153-322 | The events of a finished refresh field by field: actor and target are the owner of the row read, the reason is the one that row and its owner gave, the family event names leaf and presented token |
| `Grounds.LoginRecords` | app/domain/services/auth_service.py:100-135 | The one event of a finished login, field by field |
| `Grounds.LogoutRecords` | app/domain/services/auth_service.py:247-260 | The one event of a finished logout that wrote, about the owner of its token, and none otherwise |
| `AuthTheorems.StaleReReadWouldMissALiveFamily` | app/repositories/refresh_token_repository.py:220-232 | The retry depends on the re-read seeing the committed row: with the row as first read the same code gives up on a live family within reach |
| `Families.WriteRefines` | app/repositories/refresh_token_repository.py:76-241 | Every admissible write is, on families, a new family, a rotation of a live leaf, a kill of a live leaf, or nothing |
| `Families.LateOverwriteStutters` | app/repositories/refresh_token_repository.py:94-97 | A late logout write shows in no family |
| `Families.StepRefines` | app/domain/services/auth_service.py:91-322 | Every step of every interleaving performs an allowed abstract action; only a refresh that wins its rotation rotates, only a walk or a logout kills, only a login adds a family |
| `Families.RunRefines` | app/domain/services/auth_service.py:91-322 | Every run of the protocol is a run of the abstract family system ending in a state that represents its table |
| `Families.DeadStaysDead` | app/repositories/refresh_token_repository.py:168-172 | No abstract action touches a dead family |
| `Families.SuccessorInFamily` | app/repositories/refresh_token_repository.py:174-182 | Following links walks along one family's chain and never leaves it |
| `Families.ChainShape` | app/repositories/refresh_token_repository.py:119-125 | In every reachable table links are acyclic, each token has a leaf of its own owner, which is the only row from the token onwards that may be unrevoked, and the family is dead exactly when the leaf is revoked |
| `Families.RootOrOnePredecessor` | app/repositories/refresh_token_repository.py:119-125 | A token has a predecessor exactly when it is not the root of its family, and never two |
| `Conservation.AlwaysBalanced` | app/domain/services/auth_service.py:128-260 | In every reachable state rows, links and revocations are accounted for by events recorded or owed by requests in flight |
| `Conservation.LogAccountsForRows` | app/domain/services/auth_service.py:128-322 | With nothing in flight: rows = logins + rotations, links = rotations, unrevoked rows = logins - family kills - logouts + logouts that wrote too late |
| `Conservation.SerialLogIsExact` | app/domain/services/auth_service.py:236-260 | In runs without overlap each logout event took exactly one live token |
| `Conservation.SecondLogoutIsLate` | app/domain/services/auth_service.py:247-260 | Of two logouts that both read a token live the second writes to a revoked row and still records its event |
| `Scenarios.ReplayAfterRotations` | app/repositories/refresh_token_repository.py:36-41 | For every n, a run of one login, n refreshes and a replay of the first token: the live leaf is killed for n up to 25 and survives, with the family recorded as already revoked, from 26 on |
| `Scenarios.KilledLeafLooksLoggedOut` | app/domain/services/auth_service.py:292-300 | A run without any logout in which a token is refused as an ordinary revoked one |
| `Scenarios.LogoutLandsMidChain` | app/repositories/refresh_token_repository.py:94-97 | A run in which logout writes to a row that already has a successor |
| `Scenarios.GoodForItsLifetime` | app/domain/services/auth_service.py:167-175 | For every age, a run in which a token of that age is refreshed: granted if and only if the age is below the lifetime, the boundary instant excluded |
| `Scenarios.GoodWhileOwnerIsActive` | app/domain/services/auth_service.py:177-190 | A run in which the owner is deactivated and perhaps reactivated: granted if and only if reactivated |
| `AuthWorkflows.AuthService.Login` | app/domain/services/auth_service.py:91-137 | Exactly an active user with the right password gets a new root of a full lifetime and the success event; anyone else changes no token and is recorded with the first check that failed |
| `AuthWorkflows.AuthService.Refresh` | app/domain/services/auth_service.py:139-234 | Whatever others commit meanwhile the verdict follows the columns of the row read and of its owner (expired, owner absent or inactive, granted or lost, each exactly), new tokens mean a linked child of a full lifetime, and the events are truthful; undisturbed, verdict and table are determined |
| `AuthWorkflows.AloneDecides` | app/domain/services/auth_service.py:153-234 | Undisturbed, a refresh is granted if and only if its row is unrevoked and unexpired and its owner active; no rotation is lost |
| `AuthWorkflows.AuthService.Rotate` | app/domain/services/auth_service.py:192-234 | The rotation is won exactly when the row is still live after what others committed; a loss changes nothing and is recorded as such |
| `AuthWorkflows.AuthService.HandleRevokedToken` | app/domain/services/auth_service.py:262-322 | A revoked row without successor is only rejected; with one, reuse is recorded, the walk's victim dies, and family-revoked is recorded exactly when there was one |
| `AuthWorkflows.AuthService.Logout` | app/domain/services/auth_service.py:236-260 | A token read live is revoked, over whatever was committed meanwhile, and one event is recorded; otherwise nothing happens |
| `AuthWorkflows.WalkAlone` | app/repositories/refresh_token_repository.py:192-241 | The interleaved walk program, given all its turns at once, ends with exactly the victim of the table it started in |
| `AuthWorkflows.RefreshAgrees` | app/domain/services/auth_service.py:139-322 | The interleaved refresh program without interference reaches the table, events and verdict of the sequential workflow |
| `AuthWorkflows.LoginAgrees` | app/domain/services/auth_service.py:91-137 | The interleaved login program without interference agrees with the sequential workflow |
| `AuthWorkflows.LogoutAgrees` | app/domain/services/auth_service.py:236-260 | The interleaved logout program without interference agrees with the sequential workflow |
| `AuthWorkflows.OthersAreWrites` | app/repositories/refresh_token_repository.py:184-190 | Whatever other requests do while one waits is a list of admissible writes, so the interference parameters leave none of it out |
| `AuthWorkflows.RotateAgreesUnderInterference` | app/repositories/refresh_token_repository.py:127-156 | After any interference the rotation step of the program gives the table and verdict that the workflow gives after the same writes |
| `AuthWorkflows.LogoutAgreesUnderInterference` | app/repositories/refresh_token_repository.py:94-97 | After any interference the logout write of the program is the one of the workflow after the same writes |
| `Audit.AuditLogRepository.Record` | app/repositories/audit_log_repository.py:26-51 | The log only ever grows, by the one event given |
| `Audit.FilteredExactly` | app/repositories/audit_log_repository.py:66-71 | A recorded event is selected if and only if it has the organization, the actor and the action of every filter given |
| `Audit.AuditLogRepository.ListEvents` | app/repositories/audit_log_repository.py:53-76 | At most limit rows, each recorded and agreeing with every filter given |
| `Audit.AuditLogRepository.CountEvents` | app/repositories/audit_log_repository.py:78-98 | The number of log positions that agree with every filter given |
| `Audit.AuditLogRepository.ListingIsRanked` | app/repositories/audit_log_repository.py:53-76 | The listing is as long as limit, offset and count allow, and its i-th row is the matching row that exactly offset + i matching rows are newer than |
| `Audit.NewestFirstReverses` | app/repositories/audit_log_repository.py:64-64 | With strictly increasing timestamps the ordering is the reverse of the order of recording |
| `Audit.PagesConcatenate` | app/repositories/audit_log_repository.py:53-98 | Pages read one after another concatenate to the filtered log, newest first, and the count is its length |
| `Audit.PageShiftsUnderAppends` | app/repositories/audit_log_repository.py:53-76 | After k new matching events the page at offset o+k is the page that was at offset o |
| `Rbac.ScopedExtendsGlobal` | app/repositories/user_role_repository.py:32-37 | The permissions under an organization are the global ones together with those of rows scoped to it |
| `Rbac.GrantedExactly` | app/repositories/user_role_repository.py:144-150 | A permission is granted if and only if some assignment of the user, global or of the organization asked about, has a role that holds it |
| `Rbac.RoleInsertedExactly` | app/repositories/role_repository.py:31-59 | The insert is accepted exactly when the table with the new role satisfies every declared foreign key and unique index |
| `Rbac.AssignmentInsertedExactly` | app/repositories/user_role_repository.py:63-75 | The same for an assignment, with the two partial unique indexes |
| `Rbac.RolePermissionInsertedExactly` | app/repositories/role_repository.py:76-94 | The same for a role permission, with its composite primary key |
| `Rbac.OrganizationInsertedExactly` | app/repositories/organization_repository.py:24-39 | The same for an organization |
| `Rbac.MembershipInsertedExactly` | app/repositories/organization_membership_repository.py:26-43 | The same for a membership |
| `PermissionQuery.Join` | app/repositories/user_role_repository.py:144-150 | The nested loops over the three tables yield every matching triple of rows exactly once |
| `PermissionQuery.JoinedOncePerAssignment` | app/repositories/user_role_repository.py:137-140 | A permission is joined exactly once for each assignment in scope that grants it, hence repeatedly when several do |
| `PermissionQuery.GetPermissionsForUser` | app/repositories/user_role_repository.py:128-153 | Join, DISTINCT and ORDER BY together return, in whatever order the tables are read, the ordered set of granted permissions |
| `PermissionQuery.QueryExtendsGlobal` | app/repositories/user_role_repository.py:32-37 | The result under an organization is the global result together with what the rows scoped to it grant, in order |
| `PermissionQuery.Decide` | app/domain/services/authorization_service.py:133-147 | Scanning the query's result for an active user gives the decision |
| `PermissionQuery.QueryIsExact` | app/repositories/user_role_repository.py:128-153 | The ordered set holds each granted permission exactly once, by resource and within a resource by action, and `authorize` is true exactly when the user is active and the pair is in it |
| `PermissionQuery.OrderDetermines` | app/repositories/user_role_repository.py:151-151 | The order leaves only one possible result |
| `PermissionQuery.LessExactly` | app/repositories/user_role_repository.py:151-151 | Strings are ordered by their first difference, a proper prefix first |
| `Requests.ServeKeeps` | app/domain/services/authorization_service.py:200-262 | Foreign keys, unique indexes and the agreement of role and assignment scopes survive every request |
| `Requests.RunKeeps` | app/domain/services/authorization_service.py:149-381 | Every reachable database is consistent and its permission catalog unchanged |
| `Requests.GateExactly` | app/core/dependencies.py:164-191 | An existing caller who holds the pair of the route globally is served, one who does not is forbidden, an unknown one is unauthenticated on every route but registration; in the last two cases nothing changes and nothing is recorded |
| `Requests.CreateRoleExactly` | app/domain/services/authorization_service.py:149-198 | Each reply with its exact condition over the tables, the change made and the event recorded |
| `Requests.AssignRoleExactly` | app/domain/services/authorization_service.py:200-271 | Done exactly when the role exists, is global or of the organization named, that organization exists with the user as member, the user exists and no such row is there; every other reply exactly when its check is the first to fail |
| `Requests.RevokeRoleExactly` | app/domain/services/authorization_service.py:273-308 | Exactly the rows equal to the assignment go; found and event exactly when there was one |
| `Requests.AssignPermissionExactly` | app/domain/services/authorization_service.py:310-349 | Each reply with its exact condition; the event carries the organization of the role |
| `Requests.RemovePermissionExactly` | app/domain/services/authorization_service.py:351-381 | Only an unknown role is an error; an unknown permission is one the role does not have |
| `Requests.CreateOrganizationExactly` | app/domain/services/organization_service.py:53-82 | Done exactly when no organization has the name; the event is scoped to the new organization |
| `Requests.AddMemberExactly` | app/domain/services/organization_service.py:84-119 | The user is looked up first, then the organization, then the duplicate; each reply with its exact condition |
| `Requests.RemoveMemberExactly` | app/domain/services/organization_service.py:121-150 | Exactly this membership goes; found and event exactly when it was there |
| `RbacTheorems.JournalRebuildsTables` | app/domain/services/authorization_service.py:183-381 | Folding the recorded events over the starting tables rebuilds users, organizations, roles with their scopes, role permissions, assignments and memberships, at every point of every run |
| `RbacTheorems.ServeRecordsItsChange` | app/domain/services/authorization_service.py:149-381 | A request that does not succeed leaves tables and log alone; one that does changes the tables and adds exactly one event, which accounts for the whole change |
| `RbacTheorems.DecisionsFromTheLog` | app/domain/services/authorization_service.py:133-147 | Every decision can be recomputed from the starting tables, the fixed catalog and the log |
| `RbacTheorems.EveryEventWasAuthorized` | app/core/dependencies.py:164-191 | Whoever an RBAC or organization event names as actor passed the gate of that route, globally, when it happened |
| `RbacTheorems.TenantIsolation` | app/domain/services/authorization_service.py:233-262 | Any number of requests within one organization leaves every decision under no organization and under every other organization as it was |
| `RbacTheorems.NoPrivilegeFromNowhere` | app/api/v1/authorize.py:68-221 | While no active user holds role:manage or user:manage globally, no sequence of requests by anyone changes any decision |
| `RbacTheorems.SeededDatabaseDeniesAll` | app/db/migrations/versions/ca306aad2376_seed_default_roles_and_permissions.py:37-97 | From the freshly seeded database every check is denied for ever |
| `RbacTheorems.HarmlessRequests` | app/domain/services/organization_service.py:53-150 | Registration, organizations and membership never change a decision |
| `RbacTheorems.AssignedMembersOnly` | app/domain/services/authorization_service.py:243-262 | Each assignment within an organization was preceded by a state in which its user was a member there |
| `RbacTheorems.DuplicatesReported` | app/domain/services/authorization_service.py:173-181 | In a consistent database the duplicate error of role creation, role permission and membership is given exactly for a duplicate |
| `RbacTheorems.AssignmentDuplicateReported` | app/domain/services/authorization_service.py:256-262 | The already-assigned error is right if and only if the assignment names an organization or an existing user |
| `RbacTheorems.UnknownUserReportedAsDuplicate` | app/repositories/user_role_repository.py:64-72 | Whoever passes the gate and assigns any global role to any unknown user is answered that the user has it already |
| `RbacTheorems.UnknownUserScenario` | app/repositories/user_role_repository.py:64-72 | The same for an administrator of the seeded tables |
| `RbacTheorems.LookupsAreTotal` | app/repositories/user_role_repository.py:98-105 | In every reachable database the exact-row lookups find at most one row |
| `RbacTheorems.TakenBack` | app/repositories/user_role_repository.py:44-112 | A successful assignment, role permission or membership taken back with the same scope restores the tables |
| `RbacTheorems.GainedExactly` | app/repositories/user_role_repository.py:44-75 | An assignment gives its user what the role carries, in the scopes it covers, and nobody anything else |
| `RbacTheorems.LostExactlyWhenNothingElseGrants` | app/repositories/user_role_repository.py:77-112 | A revocation loses a permission exactly when no other assignment in scope grants it |
| `RbacTheorems.OthersKeepTheirs` | app/repositories/user_role_repository.py:77-112 | A revocation touches the permissions of its own user only |
| `IamServices.Database.DeleteUserRole` | app/repositories/user_role_repository.py:77-112 | Exactly the row with this user, role and scope is removed |
| `IamServices.Database.DeleteMembership` | app/repositories/organization_membership_repository.py:45-65 | Exactly this membership is removed |
| `IamServices.AuthorizationService.CreateRole` | app/domain/services/authorization_service.py:149-198 | Organization check, insert and event in this order: tables, event and reply are those of the request semantics; an error leaves tables and log alone, success adds the one event that accounts for the change |
| `IamServices.AuthorizationService.AssignRole` | app/domain/services/authorization_service.py:200-271 | Checks in source order, then the insert and the event, as the request semantics say |
| `IamServices.AuthorizationService.RevokeRole` | app/domain/services/authorization_service.py:273-308 | Idempotent removal; an event only when a row was removed |
| `IamServices.AuthorizationService.AssignPermissionToRole` | app/domain/services/authorization_service.py:310-349 | Checks in source order, then the insert and an event carrying the role's own organization |
| `IamServices.AuthorizationService.RemovePermissionFromRole` | app/domain/services/authorization_service.py:351-381 | Only an unknown role is an error; an event only when a pair was removed |
| `IamServices.OrganizationService.CreateOrganization` | app/domain/services/organization_service.py:53-82 | A free name creates the organization and records it; a taken one changes nothing |
| `IamServices.OrganizationService.AddMember` | app/domain/services/organization_service.py:84-119 | User and organization are checked first, so the insert can only fail for a duplicate |
| `IamServices.OrganizationService.RemoveMember` | app/domain/services/organization_service.py:121-150 | Idempotent removal; an event only when a membership was removed |

## Left out

- Duplicate registration and its event; e-mail lookup and the password hash of login, whose outcomes are given.
- JWT issuance and validation, hashing, random generation: the caller's identity and fresh keys are given.
- HTTP status codes, schemas, dependency wiring, configuration and name or listing lookups.
- SQLAlchemy sessions and the identity map, beyond the assumption on reads stated above.
- Crashes between a commit and the audit commit that follows it.
- Deletion of users, organizations, roles or tokens: no code path does it, and the foreign-key cascades with it.
- `description`, `is_system_role`, `assigned_at`, `joined_at`, `issued_at` and `last_login_at` columns: nothing modelled reads them.
- The missing-row branch of the walk (app/repositories/refresh_token_repository.py:198-204): kept in the interleaved program, where it is shown never to be taken; the sequential method omits it.
- Interleaving of RBAC requests: they are served one after another.
- The walk under interference: `RevokeDescendants` does not name the leaf it ends at as a function of the interfering writes; it and the interleaved walk are proved to give the same guarantees.
