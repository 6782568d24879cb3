# KeyRunes in Dafny

KeyRunes is a multi-tenant identity service: organizations own PostgreSQL schemas, users of a schema belong to groups,
tokens carry the group names, and policies reached through groups decide what a user may do. This project models its
services, repositories and handlers and proves what they promise.

## How it is built

* **Tables and requests.** `Tables`, `Organizations` and `Accounts` say what each statement and each request does to the rows
  of a schema, with the constraints and cascades of the migrations. `Requests` is the state machine: the world is the database,
  the clock and the tokens, reset tokens and keys handed out so far; a step is one request with its credential; a run is any
  finite sequence of steps with a clock that does not run backwards and random values that are new.
* **One transaction at a time.** `Steps` takes each request apart into its repository transactions with the request's own
  variables in between, `Granularity` proves that an uninterrupted request is one step of the state machine, and `Interleaving`
  lets any number of requests run their transactions in any order, next to organization management. Requests in flight there start
  with arbitrary arguments, which covers every credential check.
* **The services as they are written.** `Repository.Database` updates its fields in place, one transaction a method. The classes
  of `Services` and `Server` call it in the order of the code, with its loops and early returns, and each method is proved to
  leave the tables and return the result that the functions describe. `Server.App.Handle` closes the chain: one request is one
  `Step`, so every theorem about runs is about this code.
* **What callers get.** `Access` reads off the token what a caller may do, with every refusal; `Outcomes` and `OrganizationOutcomes` state
  for each request the answer and the rows it leaves, without recourse to the functions above.
* **What concurrency breaks.** Two claims hold for atomic requests only: one bootstrap administrator and one reset per token.
  `BootstrapOutcome` and `ResetRaces` say for all interleavings exactly when they hold, and `Witnesses` builds, with `Schedules`, the
  runs in which they do not.
* **Theorems.** One module a subject: `Staleness`, `Handles`, `Confinement`, `Isolation`, `Integrity`, `Binding`, `Cascades`, `Resets`, `ResetRaces`,
  `Cleanup`, `Ledger`, `Enrolment`, `Bootstrap`, `BootstrapRaces`, `BootstrapOutcome`, `Journeys`, `ResetMail`, `Keys`, `Decisions`, `Granting`, `Jwt`, `Quoting`, `Session`.

What comes from outside is a parameter. A `Planner` stands for the freedom PostgreSQL leaves a query: which of several matching
rows `fetch_optional` returns, and the order of `fetch_all`; every theorem holds for all planners. In the
atomic model a planner answers the same query of one request the same way; in an interleaving each transaction has its own. The clock counts microseconds and is cut to seconds for tokens. Password hashing is
perfect: a hash verifies exactly its own password. Only tokens this service signed pass the signature check. Random reset tokens
and keys are new wherever a theorem says so. Ids are i64 serials, and the model stops handing them out at the end of the range.

Where the code and its wording differ, the code is followed: `register` stores `first_login` as false whatever the caller sends
(`src/services/user_service.rs:309`); rotating the key of an organization that does not exist returns a key nobody owns; resetting
the password of a missing user succeeds; the token in an administrator's reset mail is for whichever row the e-mail of the
selected user finds, and `ResetMail` says exactly when that is somebody else's; a user name that reads as an e-mail is looked up as
one, and `Journeys.LoginByNameExactly` says what that costs.

## Model

| member | source | states |
|---|---|---|
| `Constants.PrivilegeIgnoresPadding` | src/constants.rs:30-35 | the privileged-name check answers alike for a name and its trimmed form, so trimming before the look-up opens no gap |
| `Email.EmailLanguage` | src/domain/user.rs:17-23 | the left-to-right scan accepts exactly the strings that split as `local@label.tail` with the three character classes of the regular expression, in both directions |
| `Decimal.ParsePrint` | src/services/jwt_service.rs:52 | the decimal text of a number parses back to it exactly when it is an i64, for every sign and size, so the fallback user id 0 is never taken for an issued token |
| `Decimal.PrintInjective` | src/services/jwt_service.rs:52 | two user ids never share a `sub` text |
| `Text.SplitJoin` | src/handler/auth.rs:240-242 | splitting at the separator undoes joining when no piece contains it |
| `Text.TrimExactly` | src/services/user_service.rs:844 | trimming cuts the white space off both ends, all of it and nothing else |
| `Jwt.GenerateToken` | src/services/jwt_service.rs:39-72 | the payload filled claim by claim is the JSON object of all nine claims, with `exp` one hour after `iat`, under the service's own secret |
| `Jwt.VerifiedExactly` | src/services/jwt_service.rs:82-153 | verification returns claims c if and only if the signature is this service's, every claim of c is present with its type and i64 range, the issuer matches and now < exp |
| `Jwt.MintedLifetime` | src/services/jwt_service.rs:120-140 | a minted token gives back exactly its identity strictly before iat + 3600 s, is `Expired` from then on, and fails under any other secret |
| `Jwt.RefreshOnce` | src/services/jwt_service.rs:155-165 | refreshing yields a token of the same identity minted now, or `Expired` |
| `Jwt.RefreshChainSurvives` | src/services/jwt_service.rs:155-165 | a chain of refreshes of any length survives if and only if every gap is under the lifetime, and then carries the original identity |
| `Quoting.SearchPathNamesNamespace` | src/repository/mod.rs:16-21 | read by the quoted-identifier rule of section 4.1.1 of the PostgreSQL manual, the quoted part denotes exactly the namespace and leaves no text over; a namespace that is no identifier (empty or with NUL) is refused |
| `Quoting.SearchPathInjective` | src/repository/mod.rs:16-21 | different namespaces give different statements |
| `Quoting.PlainIdentifierNamesNamespace` | src/repository/sqlx_impl.rs:1122-1125 | the unescaped form denotes the namespace if and only if it is an identifier without a quote |
| `Quoting.AcceptedNamespacesAgree` | src/services/organization_service.rs:45-53 | for every non-empty namespace `create_organization` accepts, `CREATE SCHEMA` and `SET search_path` name the same schema |
| `Session.ExtractBearerToken` | src/handler/auth.rs:230-254 | a usable bearer header wins; otherwise the result is the first non-empty `jwt_token` among the pieces of the cookie header, or nothing |
| `Session.FirstValueUnique` | src/handler/auth.rs:241-250 | the first non-empty `jwt_token` is determined by the header alone |
| `Session.PrintedPair` | src/views/auth.rs:18-28 | the pair a browser keeps of the printed cookie is the name and the whole token |
| `Session.CookieRoundTrip` | src/views/auth.rs:18-28 | the printed pair, put anywhere into a cookie header behind pieces without a token and padded by white space, is extracted unchanged when no bearer header wins |
| `Decisions.EvaluatePermission` | src/services/policy_service.rs:182-201 | the loop returns true if and only if some ALLOW policy matches and no DENY policy does, over the set of the listed policies |
| `Decisions.CoversExactly` | src/services/policy_service.rs:203-216 | the textual cover test holds if and only if every resource the second pattern matches is matched by the first |
| `Decisions.NestedOrDisjoint` | src/services/policy_service.rs:204-211 | the match sets of any two resource patterns are nested or disjoint |
| `Decisions.SubsumesExactly` | src/services/policy_service.rs:203-216 | one rule subsumes another if and only if it has the same effect and matches every pair the other matches |
| `Decisions.MutualSubsumptionDecidesAlike` | src/services/policy_service.rs:182-216 | policy sets that subsume each other rule by rule decide alike on every resource and action |
| `Decisions.DropCovered` | src/services/policy_service.rs:182-216 | dropping a rule covered by another of its effect changes no decision |
| `Decisions.OrderAndRepetitionIrrelevant` | src/services/policy_service.rs:188-200 | lists with the same members decide alike, in any order and with any repetition |
| `Decisions.QueryListsReachable` | src/repository/sqlx_impl.rs:224-248 | the union query lists exactly the policies reached directly or through a group, in whatever order rows come |
| `Decisions.KeyHolderAnswer` | src/api/external.rs:36-113 | for an organization key a missing user and a foreign user give the same `false`; otherwise a tenant schema fails and the global one gives the decision over the reachable policies |
| `Decisions.JoiningAddsGroupRules` | src/repository/sqlx_impl.rs:234-240 | joining a group adds exactly the rules of that group to what the user reaches |
| `Decisions.JoiningIsMonotone` | src/repository/sqlx_impl.rs:234-240 | joining a group of DENY rules grants no pair, joining one of ALLOW rules revokes none |
| `Granting.UserGrantReaches` | src/services/policy_service.rs:124-138 | a grant to a user adds that policy to what this user reaches and nothing to anybody else; a failed grant changes nothing |
| `Granting.GroupGrantReaches` | src/services/policy_service.rs:141-155 | a grant to a group adds the policy to exactly the members of the group |
| `Granting.GrantIsMonotone` | src/services/policy_service.rs:124-138 | granting a DENY allows nothing new and granting an ALLOW forbids nothing |
| `Granting.RevokingUndoesGrant` | src/repository/sqlx_impl.rs:919-961 | revoking right after a grant that was new restores the tables exactly, for users and for groups |
| `Repository.Database.FindByEmail` | src/repository/sqlx_impl.rs:20-35 | some row whose lower-cased e-mail equals the lower-cased argument, none only if there is none |
| `Repository.Database.FindByUsername` | src/repository/sqlx_impl.rs:37-52 | the row with this user name, if any |
| `Repository.Database.FindUser` | src/repository/sqlx_impl.rs:54-69 | the row with this id, if any |
| `Repository.Database.InsertUser` | src/repository/sqlx_impl.rs:71-91 | the new tables and the result: the new row takes the next serial id when the unique indexes, widths and the organization reference allow it; otherwise nothing changes |
| `Repository.Database.UpdateUserPassword` | src/repository/sqlx_impl.rs:93-113 | the new tables and the result: only the hash of that row changes; a missing row is no error |
| `Repository.Database.UpdateUserProfile` | src/repository/sqlx_impl.rs:115-137 | the new tables and the result: only e-mail and user name of that row change, unless a unique index or a width refuses |
| `Repository.Database.SetFirstLogin` | src/repository/sqlx_impl.rs:139-159 | the new tables and the result: only the flag of that row changes |
| `Repository.Database.GetUserGroups` | src/repository/sqlx_impl.rs:161-179 | every group joined to the user, each once, in some order |
| `Repository.Database.GetUserAllPolicies` | src/repository/sqlx_impl.rs:224-248 | the reachable policies in the global schema, an error in a tenant |
| `Repository.Database.CountUsers` | src/repository/sqlx_impl.rs:250-263 | the number of user rows |
| `Repository.Database.DeleteUser` | src/repository/sqlx_impl.rs:265-285 | the new tables and the result: the row goes with its memberships, grants and tokens, unless a surviving link names it as assigner; no row is an error |
| `Repository.Database.FindGroupByName` | src/repository/sqlx_impl.rs:513-534 | the group of this name and organization, if any |
| `Repository.Database.InsertGroup` | src/repository/sqlx_impl.rs:553-573 | the new tables and the result: the new row takes the next serial id when (name, organization) is free |
| `Repository.Database.AssignUserToGroup` | src/repository/sqlx_impl.rs:592-614 | the new tables and the result: an existing membership stays as it is; a new one must name existing rows |
| `Repository.Database.RemoveUserFromGroup` | src/repository/sqlx_impl.rs:616-636 | the new tables and the result: exactly this membership goes |
| `Repository.Database.InsertPolicy` | src/repository/sqlx_impl.rs:784-828 | the new tables and the result: the new row takes the next serial id when its name is free and its columns fit |
| `Repository.Database.AssignPolicyToUser` | src/repository/sqlx_impl.rs:871-893 | the new tables and the result: as for memberships, and an error in a tenant schema, which has no such table |
| `Repository.Database.AssignPolicyToGroup` | src/repository/sqlx_impl.rs:895-917 | the new tables and the result: the same for groups |
| `Repository.Database.RemovePolicyFromUser` | src/repository/sqlx_impl.rs:919-939 | the new tables and the result: exactly this grant goes |
| `Repository.Database.RemovePolicyFromGroup` | src/repository/sqlx_impl.rs:941-961 | the new tables and the result: exactly this grant goes |
| `Repository.Database.CreateResetToken` | src/repository/sqlx_impl.rs:976-999 | the new tables and the result: an unused row with the next serial id, unless its text is taken or the user is gone |
| `Repository.Database.FindValidToken` | src/repository/sqlx_impl.rs:1001-1022 | a row with this text that is unused and expires strictly later than now |
| `Repository.Database.MarkTokenUsed` | src/repository/sqlx_impl.rs:1024-1038 | the new tables and the result: only `used_at` of that row changes |
| `Repository.Database.CleanupExpiredTokens` | src/repository/sqlx_impl.rs:1040-1051 | the new tables and the result: exactly the rows past their expiry go |
| `Repository.Database.InsertOrganization` | src/repository/sqlx_impl.rs:1098-1161 | the new tables and the result: row, validated namespace and empty schema in one transaction, or nothing |
| `Repository.Database.RotateSecretKey` | src/repository/sqlx_impl.rs:1184-1194 | the new tables and the result: only the key of that organization changes; without a row a key is handed out all the same |
| `Repository.Database.DeleteOrganization` | src/repository/sqlx_impl.rs:1196-1204 | the new tables and the result: the row and all rows of all schemas that reference it go, the schemas stay; refused while a global setting names the organization or a surviving link a deleted user |
| `Repository.Database.AssignUserToGroups` | src/repository/mod.rs:198-211 | the loop inserts the memberships in order up to the first that fails, and keeps those before it |
| `Services.UserService.ResolveGroupIds` | src/services/user_service.rs:819-876 | the loop over the requested names leaves the tables and returns the ids that the recursive description says; a reserved name is refused first |
| `Services.UserService.CreateUser` | src/services/user_service.rs:173-236 | checks, resolution, insertion and assignment in this order, each stopping where the code stops, with everything written before a failure kept |
| `Services.UserService.Register` | src/services/user_service.rs:256-332 | the organization is a function of the namespace, privileged names are refused, an empty namespace bootstraps its first user, then the user is created and a token minted |
| `Services.UserService.Login` | src/services/user_service.rs:340-400 | the row found by e-mail or user name, the hash check, and the session built from the group names of now |
| `Services.UserService.ChangePassword` | src/services/user_service.rs:403-439 | needs the current password and a long enough new one, then writes hash and flag |
| `Services.UserService.ForgotPassword` | src/services/user_service.rs:484-538 | a token for the row found, valid for 24 hours |
| `Services.UserService.ResetPassword` | src/services/user_service.rs:541-562 | a good token, then a long enough password, then the hash is written and the token used up |
| `Services.UserService.RefreshTokenForUser` | src/services/user_service.rs:639-656 | a token minted from the row and the memberships of now |
| `Services.UserService.UpdateUser` | src/services/user_service.rs:694-740 | profile first, flag behind it, and the response shows what was written |
| `Services.UserService.ResetUserPassword` | src/services/user_service.rs:749-773 | the temporary password and the flag are written for an existing user, and returned in any case |
| `Services.GroupService.CreateGroup` | src/services/group_service.rs:59-85 | a tenant cannot create a `superadmin` look-alike; a taken name is refused; otherwise the group is inserted |
| `Services.GroupService.AssignUserToGroup` | src/services/group_service.rs:148-172 | a missing group and, in a tenant, a `superadmin` look-alike are refused; otherwise the membership is inserted |
| `Services.PolicyService.CreatePolicy` | src/services/policy_service.rs:62-91 | taken name, empty resource and empty action are refused in this order |
| `Services.PolicyService.AssignPolicyToUser` | src/services/policy_service.rs:124-138 | the policy must exist, then the grant is inserted |
| `Services.PolicyService.AssignPolicyToGroup` | src/services/policy_service.rs:141-155 | the same for a group |
| `Services.PolicyService.CheckPermission` | src/api/external.rs:55-113 | the subject is resolved without leaking its existence to an organization key, then the decision loop runs over the reachable policies |
| `Services.OrganizationService.CreateOrganization` | src/services/organization_service.rs:37-89 | name and namespace are checked, the organization is inserted, and the loop inserts whichever default group is missing |
| `Server.AdminApi.GetOrgNamespaceSafe` | src/api/admin.rs:632-668 | the namespace of the organization, refused unless it is the caller's own or the caller is a global superadmin |
| `Server.AdminApi.CreateUser` | src/api/admin.rs:94-129 | the handler is one step of the state machine: creates the user in the gated namespace, naming the caller as assigner only inside its own |
| `Server.AdminApi.UpdateUser` | src/api/admin.rs:526-553 | the handler is one step of the state machine: updates the user of the gated namespace |
| `Server.AdminApi.DeleteUser` | src/api/admin.rs:493-523 | the handler is one step of the state machine: a tenant caller cannot delete itself; otherwise deletes in the gated namespace |
| `Server.AdminApi.ResetUserPassword` | src/api/admin.rs:556-582 | the handler is one step of the state machine: resets inside the gated namespace |
| `Server.AdminApi.SendPasswordResetEmail` | src/api/admin.rs:585-625 | the handler is one step of the state machine: the row is found by id, the token is made for whoever its e-mail finds |
| `Server.AdminApi.CreateGroup` | src/api/admin.rs:65-91 | the handler is one step of the state machine: creates the group in the gated namespace |
| `Server.AdminApi.AssignUserToGroup` | src/api/admin.rs:359-400 | the handler is one step of the state machine: joins in the gated namespace |
| `Server.AdminApi.RemoveUserFromGroup` | src/api/admin.rs:403-438 | the handler is one step of the state machine: leaves in the gated namespace |
| `Server.AdminApi.CreatePolicy` | src/api/admin.rs:333-356 | the handler is one step of the state machine: creates the policy in the gated namespace |
| `Server.OrganizationApi.GetOrgKey` | src/api/organization.rs:58-104 | the handler is one step of the state machine: an administrator sees the key of the organization behind its own row, if that belongs to its namespace |
| `Server.OrganizationApi.RotateOrgKey` | src/api/organization.rs:125-178 | the handler is one step of the state machine: the same checks, then the key of that organization is rotated |
| `Server.OrganizationApi.ListOrganizations` | src/api/organization.rs:230-283 | the handler is one step of the state machine: everything for a global superadmin, the caller's own namespace for another administrator |
| `Server.OrganizationApi.CreateOrganization` | src/api/organization.rs:181-204 | the handler is one step of the state machine: global superadmins only |
| `Server.OrganizationApi.AdminRotateOrgKey` | src/api/organization.rs:286-311 | the handler is one step of the state machine: global superadmins only |
| `Server.OrganizationApi.DeleteOrganization` | src/api/organization.rs:328-345 | the handler is one step of the state machine: global superadmins only |
| `Server.App.HandleCheck` | src/handler/auth.rs:172-224 | an unknown key is unauthorized, a bearer token counts only for a global superadmin, and the check runs in the namespace of the credential |
| `Server.App.HandleRegister` | src/api/auth.rs:116-136 | a registration is one step of the state machine |
| `Server.App.HandleLogin` | src/api/auth.rs:154-168 | a login is one step of the state machine and changes nothing |
| `Server.App.HandleResetPassword` | src/api/auth.rs:354-373 | a token reset is one step of the state machine |
| `Server.App.Refresh` | src/api/auth.rs:188-203 | the refreshed token is minted for the identity of the bearer token, from the rows of now |
| `Server.App.ChangeOwnPassword` | src/api/user.rs:35-51 | acts on the caller's own row |
| `Server.App.EditOwnProfile` | src/api/user.rs:20-32 | acts on the caller's own row and leaves `first_login` alone |
| `Server.App.Handle` | src/handler/auth.rs:68-90 | every request, from credential to answer, leaves exactly the world and returns exactly the answer of the state machine, and keeps the database consistent |
| `Steps.StatementTouches` | src/repository/sqlx_impl.rs:71-139 | each statement writes to one table and leaves every other column of the schema as it was |
| `Steps.AdvanceWrites` | src/repository/sqlx_impl.rs:71-159 | each repository transaction changes the tables by one statement, which depends on the request's own variables alone |
| `Steps.AdvanceProgresses` | src/services/user_service.rs:842-873 | every transaction brings its request strictly closer to its answer, loops included |
| `Granularity.UninterruptedIsAtomic` | src/services/user_service.rs:173-236 | a request run transaction by transaction without interruption does exactly what the whole-request description says, for all seventeen acts |
| `Granularity.DriveGroups` | src/services/user_service.rs:842-873 | the resolving loop, one or two transactions a turn, computes the recursive description from any loop state |
| `Interleaving.StepTouches` | src/repository/sqlx_impl.rs:592-614 | what a step does to any one schema is nothing or the outcome of one transaction on it, and no schema disappears |
| `Interleaving.ThreadMoves` | src/services/user_service.rs:541-562 | a request in flight moves by its own transactions only |
| `Integrity.AdvanceKeepsValid` | migrations/tenant/001_init_tenant.sql:1-65 | no transaction of any request, after any other, breaks a primary key, unique index or reference |
| `Constraints.EraseKeeps` | migrations/tenant/001_init_tenant.sql:49-55 | cascades and the refusal to orphan an assigner leave no dangling reference |
| `Integrity.RunKeepsDbOk` | src/repository/sqlx_impl.rs:71-91 | over every run, ids stay below their serial, e-mail, user name, group, policy, token, key and namespace uniqueness hold, and no link dangles |
| `Integrity.InterleavingsKeepValid` | migrations/tenant/001_init_tenant.sql:1-65 | in every interleaving of transactions every schema keeps every declared constraint |
| `Binding.RunKeepsBound` | src/services/user_service.rs:257-283 | in every run of atomic requests without an organization delete each row of a schema carries the id of the one organization of that namespace |
| `Binding.StatementKeepsOwnerExactly` | src/repository/sqlx_impl.rs:71-91 | a statement keeps all rows of a schema with one organization if and only if it is for that organization or adds nothing |
| `Binding.InterleavingsKeepOwner` | src/services/user_service.rs:173-236 | in every interleaving, also next to organization deletes, a schema holds rows of one organization only, as long as each request that began there and each seeded group names that organization |
| `Binding.PlansNameTheOwner` | src/api/admin.rs:106-121 | a request that adds rows to a schema adds them for the organization of that schema |
| `Binding.MembershipsStayInside` | src/services/user_service.rs:257-283 | every membership joins a user and a group of one organization, the one the schema belongs to |
| `Binding.FirstDeletionCascades` | src/repository/sqlx_impl.rs:1196-1204 | the first delete from such a state is refused if and only if a global setting names the organization; otherwise it empties that organization's own schema and changes no other |
| `Isolation.PlansStayHome` | src/api/admin.rs:632-668 | without a global superadmin's token every request is refused or acts in the caller's own namespace |
| `Isolation.RequestsStayHome` | src/api/admin.rs:632-668 | such a request changes nothing outside its own schema and the key of its own organization |
| `Isolation.AnswersDependOnHome` | src/handler/auth.rs:48-51 | two worlds that agree on the caller's schema and on the organizations give the same answer and agree afterwards |
| `Isolation.ForeignRunsLeaveNoTrace` | src/api/organization.rs:125-178 | a run of requests from elsewhere leaves a tenant's schema and organization exactly as they were |
| `Confinement.NoTenantSuperadmin` | src/services/user_service.rs:819-876 | under every interleaving of transactions no tenant membership leads to a group whose trimmed, case-folded name is `superadmin`, although such a group may exist |
| `Confinement.NoTenantSuperadminToken` | src/services/group_service.rs:148-172 | and no token issued for a tenant carries such a name |
| `Handles.AdvanceAges` | src/services/group_service.rs:59-66 | group names never change and ids are never reused, so an id checked once stays harmless while other requests run |
| `Handles.StepJoins` | src/repository/sqlx_impl.rs:592-614 | whatever step runs, a membership it leaves was there before or is the one the ticking request inserted |
| `Handles.LoopsStayClean` | src/services/user_service.rs:842-876 | each turn of the resolving and assigning loops carries no guarded name and no id of a guarded group on, whatever other requests did to the groups in between |
| `Staleness.MintedClaimsAreCurrent` | src/services/user_service.rs:639-656 | a minted token names, for its user, exactly the groups that user holds when the request ends, and expires one lifetime later |
| `Staleness.BoundedStaleness` | src/services/jwt_service.rs:48-63 | one hour after user u is seen without group g, and while the membership does not come back, no issued token that claims u in g is accepted, through any mix of requests |
| `Staleness.LosingMemberships` | src/services/user_service.rs:639-656 | leaving the only group of a name ends that membership, and a deleted user holds no group |
| `Resets.ResetExactly` | src/services/user_service.rs:541-562 | a reset succeeds exactly on an unused token strictly before its expiry with a long enough password, and then changes its issuee's hash and its own `used_at` and nothing else |
| `Resets.ShortPasswordConsumesNothing` | src/services/user_service.rs:548-550 | after a too short password the token is as good as before |
| `Resets.ResetAtMostOnce` | src/repository/sqlx_impl.rs:1001-1038 | in any run, behind a successful reset every further attempt with that token is refused as invalid and changes nothing |
| `ResetRaces.AdvanceAgesTokens` | src/repository/sqlx_impl.rs:1024-1051 | no transaction clears `used_at`, renames a token or reuses a token id |
| `ResetRaces.LaterResetFails` | src/services/user_service.rs:541-562 | in every interleaving, once a reset has completed every later-starting one with that token fails |
| `ResetRaces.ResetSucceedsExactly` | src/services/user_service.rs:541-562 | in every interleaving a reset gets past its first transaction if and only if that transaction found a usable token and a long enough password, and succeeds if and only if it has marked the token; nothing in between stops it |
| `ResetRaces.FoundUntilMarked` | src/repository/sqlx_impl.rs:1001-1038 | at any moment of any interleaving a token is found if and only if a row of that text is there, its expiry is still to come, and it was neither used at the start nor marked by any reset since |
| `ResetRaces.BothSucceedExactly` | src/services/user_service.rs:541-562 | two resets with one token both succeed if and only if the find of each precedes the mark of the other |
| `Witnesses.TwoResets` | src/services/user_service.rs:541-562 | such a run exists for every usable token and any two long enough passwords, so the claim for atomic requests cannot be widened to overlapping ones |
| `Cleanup.AdvanceCommutes` | src/repository/sqlx_impl.rs:1040-1051 | a transaction behaves alike on tables that differ in expired tokens only, and keeps them so |
| `Cleanup.CleanupIsUnobservable` | src/repository/sqlx_impl.rs:1040-1051 | put anywhere into a run with a clock that does not run backwards and fresh token texts, a clean-up changes no answer of any other request |
| `Ledger.PerformPosts` | src/services/user_service.rs:403-439 | the stored hashes and flags after a request are those before it with what the request wrote, also when it stopped half-way |
| `Ledger.StoredIsLastWritten` | src/services/user_service.rs:749-773 | over every run the stored hash and flag of each user are the last ones written to it |
| `Ledger.LoginFollowsHistory` | src/services/user_service.rs:340-400 | a login is accepted if and only if the password is the last one written to the user found, and asks for a change as the last `first_login` written says; a token reset writes no flag |
| `Enrolment.ResolveNamesAll` | src/services/user_service.rs:842-873 | on success the i-th id is the group of that organization named by the trimmed i-th request; existing groups stay, and only `users` and `admin` are ever inserted, also when the loop stops |
| `Enrolment.ResolvedGroups` | src/services/user_service.rs:819-876 | the same for the whole function, with `users` for an empty request, and calling it again returns the same ids and changes nothing |
| `Enrolment.ResolveSucceedsExactly` | src/services/user_service.rs:845-873 | the loop succeeds if and only if each trimmed name is a group of the organization, or one of the two default names and the organization exists; as long as group ids last |
| `Enrolment.CreateUserSucceedsExactly` | src/services/user_service.rs:173-236 | `create_user` succeeds if and only if neither lookup finds a row, the columns and the organization admit the new one, no name is reserved, every name is known and the assigner is a user; as long as ids last |
| `Enrolment.CreateUserAnswersWanted` | src/services/user_service.rs:197-235 | a created user is answered with exactly the set of requested names, or with `users` |
| `Enrolment.CreateUserJoins` | src/services/user_service.rs:197-222 | whether or not it succeeds, `create_user` adds at most one row under the next serial id and no membership but the new user's in groups it asked for |
| `Bootstrap.OnlyTheFirstIsPrivileged` | src/services/user_service.rs:285-314 | over any sequence of atomic registrations from a schema without users, refused ones included, a privileged group is held by the first user stored only: `superadmin` in the global namespace, `admin` in a tenant |
| `Bootstrap.RequestedGroupGrantsNothing` | src/constants.rs:30-35 | a requested group that reads as privileged in any case and padding is refused without effect; any other grants no privileged name |
| `BootstrapRaces.PrivilegeComesFromZeroCounts` | src/services/user_service.rs:285-314 | however registrations interleave, also with any other request that puts nobody into a group and with any deletion, whoever holds a privileged group was stored by a registration whose own count read 0 |
| `BootstrapOutcome.AdministratorsExactly` | src/services/user_service.rs:285-314 | when nothing is deleted and nothing is in flight any more, the users in a privileged group are exactly those whose registration counted 0 |
| `BootstrapOutcome.AtMostOneAdministrator` | src/services/user_service.rs:285-314 | so there is at most one of them if and only if no two registrations that stored their user had counted 0 |
| `BootstrapOutcome.ZeroCountsComeFirst` | src/services/user_service.rs:285-300 | and each count of 0 precedes the first insertion |
| `Witnesses.TwoAdministrators` | src/services/user_service.rs:285-314 | from any namespace without users where ids last and the bootstrap group can be found or inserted, two registrations with different e-mails and user names that both count before either stores its user both succeed, and the namespace ends up with two administrators |
| `Journeys.RegisterThenLogin` | src/services/user_service.rs:256-400 | after a registration a login by its e-mail in any case, or by its user name if that does not read as an e-mail, leads to the new user with the registered password and no other, and asks for no password change |
| `Journeys.LoginByNameExactly` | src/services/user_service.rs:340-354 | a login by the registered user name and password leads to the new user if and only if the name does not read as an e-mail, or is the own e-mail up to case |
| `ResetMail.SendResetExactly` | src/api/admin.rs:585-625 | the token in an administrator's reset mail is for the selected user, whichever row the e-mail finds, if and only if no other row has that e-mail in some case |
| `ResetMail.GlobalResetsAreAddressed` | src/api/admin.rs:585-625 | in the global schema it always is |
| `ResetMail.MailForSomebodyElse` | src/services/user_service.rs:694-740 | in a tenant, any user may take another's e-mail in a different case, and then the mail meant for the other can carry a token for the taker |
| `ResetMail.BobTakesAnnsMail` | migrations/tenant/001_init_tenant.sql:6-7 | a tenant in which that can happen |
| `Journeys.TokenIdentity` | src/handler/auth.rs:54-65 | the caller rebuilt from a minted token is the user, groups, namespace and organization it was minted for |
| `Journeys.LoginOpensSession` | src/services/user_service.rs:340-400 | a login token speaks for the stored row, names exactly the groups held at that moment, and is good for exactly one hour |
| `Journeys.ForgotThenReset` | src/services/user_service.rs:484-562 | the mailed token resets exactly the password of the user it was made for, if and only if less than 24 hours have passed and the new password is long enough |
| `Journeys.ChangePasswordExactly` | src/services/user_service.rs:403-439 | the change goes through if and only if the user exists, the current password verifies and the new one is long enough; then hash and flag of that row change and nothing else |
| `Journeys.UpdateUserExactly` | src/services/user_service.rs:694-740 | a success writes exactly the given values to that row and answers with it, an error leaves the tables alone |
| `Journeys.DeleteUserExactly` | src/repository/sqlx_impl.rs:265-285 | deletion is refused if and only if somebody else's link names the user as assigner; otherwise the row and its own memberships, grants and tokens go and nothing of anybody else |
| `Journeys.CreatedGroupIsFound` | src/services/group_service.rs:59-85 | a created group is found by name in its organization, and creating it again is refused |
| `Journeys.CreatedPolicyDecides` | src/services/policy_service.rs:62-91 | a created policy, once granted, is in force for its own resource and action as its effect says, against the DENY rules already reached |
| `Isolation.PlainUsersTouchOnlyThemselves` | src/handler/auth.rs:140-153 | a caller with neither administrative group changes nothing in the database but credentials and profile of its own row, and every administrative call is refused without effect |
| `Constraints.UserGrantKeeps` | src/repository/sqlx_impl.rs:871-893 | a grant to a user leaves no dangling or duplicate row, and none in a tenant |
| `Constraints.GroupGrantKeeps` | src/repository/sqlx_impl.rs:895-917 | the same for a grant to a group |
| `Granting.GrantsKeep` | src/repository/sqlx_impl.rs:871-961 | granting and revoking, to users and groups, keep every declared constraint |
| `Keys.StepNotes` | src/api/organization.rs:125-178 | the stored keys after a request are those before it with what the answer says |
| `Keys.KeyAuthenticatesExactly` | src/handler/auth.rs:181-208 | over every run a key authenticates if and only if it is the last one issued to an existing organization, and resolves to that organization |
| `Keys.RotationAffectsOneOrganization` | src/repository/sqlx_impl.rs:1173-1194 | after a rotation the organization answers to the new key only and every other to its old one |
| `Keys.KeyHolderDecision` | src/api/external.rs:36-113 | end to end, an organization-key caller is allowed if and only if the user is in its schema and organization, some reachable ALLOW matches and no reachable DENY does; unknown keys and tenant schemas give the stated errors |
| `Access.DeadTokensAreRefused` | src/handler/auth.rs:68-90 | a bearer token that was not issued here, names another issuer or has reached its `exp` is answered 401 and changes nothing, whatever is asked for |
| `Access.SelfServiceRuns` | src/api/user.rs:20-51 | with a live token, refreshing, changing the password and editing the profile run in the namespace and for the user id written in the token, 0 if that is no number |
| `Access.AdministrationExactly` | src/api/admin.rs:94-129 | with a live token, an administrative call is refused for a missing group, a malformed form, deleting oneself, a missing organization or a foreign one, in this order, and otherwise runs in the namespace of the organization, crediting the caller only at home |
| `Access.ForbiddenExactly` | src/api/admin.rs:632-668 | a well-formed administrative call is forbidden if and only if the token has neither `admin` nor `superadmin`, or the organization exists in another namespace than the token's and the token is not a `superadmin` of `public` |
| `Access.RightfulCallersAreLetIn` | src/handler/auth.rs:48-51 | a `superadmin` of `public` is never forbidden for an existing organization, nor an administrator for one of its own namespace |
| `Access.ManagementExactly` | src/api/organization.rs:318-345 | organizations are created, rotated by id and deleted by live tokens with namespace `public` and group `superadmin`, and by no others |
| `Access.ListExactly` | src/api/organization.rs:212-283 | such a token lists every organization; another administrator, whose own row belongs to an organization of its namespace, lists those of that namespace |
| `Access.ReadOwnKeyExactly` | src/api/organization.rs:58-122 | an administrator reads the key of the organization of its own row, if that is of its own namespace; the error tells which check failed |
| `Access.RotateOwnKeyExactly` | src/api/organization.rs:125-178 | and rotates it, the row being checked before the group |
| `Access.OnlySuperadminsReachOut` | src/handler/auth.rs:48-51 | whoever changes another namespace's schema or another organization, adds or removes an organization, or is shown a foreign one presents a live token with namespace `public` and group `superadmin` |
| `Access.TokenHolderDecision` | src/handler/auth.rs:207-224 | without an organization key the permission API answers 401 unless the token is live with namespace `public` and group `superadmin`; then a missing user is an error, and for any other the answer is that an ALLOW rule reached by the user matches and no DENY rule does |
| `Access.RefreshOpensSession` | src/services/user_service.rs:639-656 | a refresh gives a token for the row of now that names exactly the groups the user holds and is good for exactly one hour; a missing row is an error |
| `Access.PublicRequestsRun` | src/api/auth.rs:154-168 | login, forgotten password, reset and clean-up run in the namespace they name with the values they carry |
| `Access.RegistrationsAreBound` | src/services/user_service.rs:257-283 | a registration is for the organization of its namespace, or for the one it names where there is none, or for the default one in `public`; anything else is refused |
| `Access.EffectsNeedLiveTokens` | src/handler/auth.rs:81-89 | in every run, a bearer request that changes the database or is answered by anything but 401 presents a token that was there at the start or was handed out by an earlier answer, and has not expired |
| `Access.LostGroupsHaveNoEffect` | src/handler/auth.rs:81-89 | one hour after user u is seen without group g, and while the membership does not come back, every request with a token that claims u in g is answered 401 and changes nothing |
| `Outcomes.JoinGroupExactly` | src/services/group_service.rs:148-172 | assigning a user to a group succeeds if and only if the group exists, is no `superadmin` look-alike in a tenant, and the membership is there or user and assigner exist; then exactly that membership is added, an old one stays as it was, and every error changes nothing |
| `Outcomes.JoiningJoins` | src/services/group_service.rs:169-171 | after that the user holds the group and reaches its policies, and nobody else gains a group or a policy |
| `Outcomes.LeaveGroupExactly` | src/services/group_service.rs:175-185 | leaving removes that membership only |
| `Outcomes.CreateGroupExactly` | src/services/group_service.rs:59-85 | reserved, taken and unfit names give three different errors without effect; otherwise the row appears under the next id |
| `Outcomes.CreatePolicyExactly` | src/services/policy_service.rs:62-91 | the same for policies, with empty patterns refused, and names free across organizations in a tenant |
| `Outcomes.LoginExactly` | src/services/user_service.rs:340-400 | a login is for a row with that e-mail in some case, or that user name; it opens a session for that row and its groups if and only if the password is the stored one, and each failure has its error |
| `Outcomes.RefreshExactly` | src/services/user_service.rs:639-656 | the fresh token carries the row, the namespace and exactly the groups held now |
| `Outcomes.CreateUserExactly` | src/services/user_service.rs:173-236 | taken e-mail, taken user name and reserved group are refused in this order; behind them the call succeeds if and only if columns, organization, names and assigner are good, and then stores the row, and answers with the groups asked for, which are those it holds |
| `Outcomes.RegisterExactly` | src/services/user_service.rs:285-332 | privileged group, malformed e-mail, a password under eight bytes, taken e-mail and taken user name are refused in this order without effect; otherwise, with known names and fitting columns, the row is stored and a session for it opened |
| `Outcomes.ChangePasswordExactly` | src/services/user_service.rs:403-439 | each refusal has its error and no effect; a success replaces hash and flag of that row |
| `Outcomes.ForgotPasswordExactly` | src/services/user_service.rs:484-538 | a token good for exactly 24 hours is stored for a user of that e-mail in some case, or the e-mail is unknown |
| `Outcomes.SendResetExactly` | src/api/admin.rs:585-625 | the same for the e-mail of the selected row |
| `Outcomes.ResetPasswordExactly` | src/services/user_service.rs:541-562 | an unused, unexpired row of that text is needed, then eight bytes; then the user's hash and the row's `used_at` change and nothing else |
| `Outcomes.ResetUserPasswordExactly` | src/services/user_service.rs:749-773 | an existing row gets the temporary password and the flag; the answer is the temporary password in any case |
| `Outcomes.CleanupExactly` | src/repository/sqlx_impl.rs:1040-1051 | exactly the reset tokens past their expiry go |
| `Outcomes.UpdateUserExactly` | src/services/user_service.rs:694-740 | a missing row, a malformed e-mail and values that do not fit or are taken are refused without effect; otherwise exactly the given values are written and shown with the groups held |
| `Outcomes.DeleteUserExactly` | src/repository/sqlx_impl.rs:265-285 | a missing row and one credited by somebody else's link are refused; otherwise the row goes with its own links and tokens |
| `Outcomes.CheckPermissionExactly` | src/api/external.rs:36-113 | a missing user is an error for a superadmin and `false` for an organization key, as is a foreign user; otherwise the answer is that some ALLOW rule assigned to the user or its groups matches resource and action and no DENY rule does |
| `Outcomes.RuledByHits` | src/services/policy_service.rs:203-216 | the rules the union query and the matching loop find are those assigned to the user or to one of its groups whose resource is the text itself or a prefix before a star, and whose action is the text itself or a star |
| `Granting.GrantsExactly` | src/services/policy_service.rs:124-155 | a grant goes through if and only if the policy, the user or group and the assigner exist, in the global schema; it adds that link only and keeps an old one |
| `Granting.RevocationsExactly` | src/repository/sqlx_impl.rs:919-961 | a revocation removes that link only |
| `OrganizationOutcomes.CreateExactly` | src/services/organization_service.rs:37-89 | a taken name, a malformed namespace and an unfit one give their errors without effect; otherwise the organization appears under the next id with its key, and its schema holds the groups `admin` and `users` and nothing else |
| `OrganizationOutcomes.RotateExactly` | src/repository/sqlx_impl.rs:1184-1194 | a rotation replaces the key of that organization, is refused if another one has the key, and without a row answers with a key nobody owns |
| `OrganizationOutcomes.ReadExactly` | src/repository/sqlx_impl.rs:1163-1171 | reading shows the organization, listing all or those of one namespace |
| `OrganizationOutcomes.DropExactly` | src/repository/sqlx_impl.rs:1196-1204 | deleting an organization takes its rows from a schema with every link and reset token that refers to them, unless a remaining link credits one of its users |
| `OrganizationOutcomes.DeleteExactly` | src/repository/sqlx_impl.rs:1196-1204 | and does so in every schema, or is refused as a whole; a global setting of the organization refuses it as well |

## Left out

- Statements behind `SELECT` lists and formatting: `list_users`, `list_groups`, `list_policies`, `/api/me`, the dashboard counters and the raw permission check of `src/api/admin.rs`; they read what is modelled and decide nothing new.
- The second copy of the bearer parser in `src/api/auth.rs`; the shared one of `src/handler/auth.rs` is modelled.
- Extraction and parsing in front of the handlers: JSON bodies, path and query parameters, UUID syntax of keys. A request arrives with typed values.
- HTML views and templates except `session_cookie`, e-mail sending, settings rows beyond the organizations they name, environment variables, pooling, the migration runner and the command-line tools. Wiring the parsed bearer token into a request is part of the `Credential` and `Bearer` arguments.
- Argon2, HS256 and the random generators: replaced by the ideal behaviour described above. A stored hash that does not parse is kept as a case of its own.
- Descriptions, external ids, timestamps of rows, `base_url` and policy `conditions`: stored, never evaluated.
- Serial gaps: PostgreSQL also advances a sequence on a refused insertion; here the next id moves with accepted rows only. Ids are not reused either way.
- PostgreSQL `LOWER` beyond the ASCII letters, and the Unicode tables behind `\w` and `is_alphanumeric`: every character beyond ASCII counts as a letter here, a superset of what is accepted.
- Namespaces whose organization was deleted: the schema stays and creating the namespace again is answered as a database error; running the initial script over existing tables is not modelled. Identifiers are not cut at 63 bytes; longer namespaces are refused by their column.
- Failing connections: a transaction fails for the reasons the tables give, not because the database is unreachable.
- `UserService::refresh_token`, `update_password` and the routes nobody mounts; the token-copying refresh is modelled in `Jwt` alone.
- `get_user_policies` and `get_group_policies`: simple joins next to the union query that decisions use.
- Bootstrap.OnlyTheFirstIsPrivileged: about atomic registrations, since count and insertion are separate transactions; `BootstrapOutcome.AtMostOneAdministrator` is the exact statement for interleaved ones.
- BootstrapOutcome.AdministratorsExactly: about runs in which no user, group or membership of the namespace is deleted, since behind a deletion the count may be zero again, and in which no administrator creates users or assigns groups there. `BootstrapRaces.PrivilegeComesFromZeroCounts` needs the second condition only.
- Binding.RunKeepsBound: about runs without an organization delete, behind which a namespace may have rows and no organization, and about atomic requests: `register` looks its organization up before its first transaction in the schema, and that lookup is no step of `Steps`, so an organization created in between is not seen. `Binding.InterleavingsKeepOwner` is what holds under interleaving.
- Resets.ResetAtMostOnce: about atomic requests; `ResetRaces.BothSucceedExactly` is the exact statement for interleaved ones.
- Binding.FirstDeletionCascades: as in `Tables.Erase`, PostgreSQL is taken to check the references without cascade (`assigned_by`) at the end of the statement, after all cascades; the order in which the row triggers of one statement fire is not modelled.
- Repository.Database.DeleteOrganization: which organizations the global settings name is fixed; writing settings is not modelled.
- Email.EmailLanguage: every character beyond ASCII counts as a word character, so addresses with non-ASCII characters outside `\w`, such as a currency sign, are accepted here and refused by the code.
- Enrolment.ResolveSucceedsExactly: for schemas whose group ids are not used up.
- Enrolment.CreateUserSucceedsExactly: for schemas whose user and group ids are not used up.
- Outcomes.CreateUserExactly: for the same schemas, and an unknown group name is answered with some error here; `Enrolment.ResolveNamesAll` says what the loop leaves then.
- Outcomes.RegisterExactly: likewise.
