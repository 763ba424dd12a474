# Security audit dashboard: verified model of the API core

This project is a Dafny model of the back end of a security-audit dashboard.

- Users sign in through an external identity provider (Okta or Microsoft) and are provisioned on first login with the `BasicUser` role.
- Every login, logout and role assignment is appended to an audit log of security events.
- Access to the audit views is granted by database-backed permission claims attached to roles:
  - `Audit.ViewAuthEvents` guards the `CanViewAuthEvents` policy;
  - `Audit.RoleChanges` guards `CanViewRoleChanges`.

The model follows the program's layers, one Dafny module each:

| module | models |
|---|---|
| `Entities` | the five entity types: `User`, `Role`, `Claim`, `RoleClaim`, `SecurityEvent`, with their defaults and column widths |
| `AuditDb` | the database context as a class holding the five tables. It also holds the key, unique-index and foreign-key constraints (`Consistent`), the seed data, the three row writes `SaveChanges` performs (each returns the violated constraint when it refuses), and row lookups and listings |
| `Principals` | a claims principal as an ordered list of claims, `FindFirst` with ordinal case-insensitive matching, and the `??` chains over it |
| `EventQueries` | the three audit-log queries: filter by event type, then newest first |
| `EventRecords` | the records the event services append |
| `Repositories`, `LegacyRepositories` | the two data-access layers, as classes over one shared context |
| `Services`, `LegacyServices` | the two generations of user and security-event services |
| `Authorization` | the permission handler and the two policies |
| `Authentication` | the identity-provider settings and their authority URLs |
| `GraphQL` | the two mutations and the computed `roleChange` field |
| `Controllers` | the users endpoint |

The state is held and changed in place, as in the program:

- The context is a `class` whose table fields the write methods reassign.
- Repositories, services, the mutation class and the controller are classes that hold their collaborators.
- Every state-changing method keeps `Valid()` (all database constraints) and states its whole new state.

Other modelling choices:

- **Inputs the program draws itself:** the id `Guid.NewGuid()` and the clock `DateTime.UtcNow` become parameters (`newId`/`eventId`, `now`).
- **Exceptions:** an exception becomes a `Failure`/`Fail` value carrying a `Fault`. A fault is either an `InvalidOperationException` with its message, or a failed `SaveChanges` with the violated constraint.
- **Queries without ORDER BY:** a query without `ORDER BY` may return any matching row. Its contract admits every such row and says "null" exactly when none matches.

## Model

| member | source | states |
|---|---|---|
| Entities.NewUser | Data/Entities/User.cs:7-26 | `new User()`: the given id, empty strings, both timestamps at `now`, Guid.Empty role; it fits every column |
| Entities.NewSecurityEvent | Data/Entities/SecurityEvent.cs:7-22 | `new SecurityEvent()`: the given id and time, empty type, Guid.Empty users, no details and no role ids; it fits every column |
| AuditDb.ReferencedRoleCannotBeDeleted | Data/Context/AuditDbContext.cs:29-32 | Restrict on delete: removing a role that a user references breaks the User→Role foreign key |
| AuditDb.ReferencedUserCannotBeDeleted | Data/Context/AuditDbContext.cs:70-78 | Removing a user that an event names as author or affected user breaks an event foreign key |
| AuditDb.SeedIsConsistent | Data/Context/AuditDbContext.cs:85-152 | The seeded roles, claims and links satisfy every key, unique index, foreign key and column width |
| AuditDb.SeedGrants | Data/Context/AuditDbContext.cs:134-151 | The seeded links grant BasicUser nothing, AuthObserver exactly Audit.ViewAuthEvents, and SecurityAuditor exactly both permissions |
| AuditDb.InsertUserKeepsConsistent | Data/Context/AuditDbContext.cs:22-33 | An insert that violates no key, foreign key or unique email keeps every key, unique-index and foreign-key constraint |
| AuditDb.UpdateUserKeepsConsistent | Data/Context/AuditDbContext.cs:22-33 | An update of an existing row to an existing role, with an email no other user holds, keeps every key, unique-index and foreign-key constraint |
| AuditDb.InsertEventKeepsConsistent | Data/Context/AuditDbContext.cs:64-79 | An event with a fresh id whose author and affected user exist keeps every key, unique-index and foreign-key constraint |
| AuditDb.WritesKeepLimits | Data/Entities/User.cs:9-19 | Over a store within its [MaxLength] widths, a user write or an event insert keeps the widths iff the written row fits its columns |
| AuditDb.AuditDbContext.constructor | Data/Context/AuditDbContext.cs:85-152 | A new database holds exactly the seed rows and is consistent |
| AuditDb.AuditDbContext.FindUser | Repositories/Implementations/UserRepository.cs:17-33 | FirstOrDefault: returns a stored matching user, or None exactly when no stored user matches |
| AuditDb.AuditDbContext.FindRole | Repositories/Implementations/RoleRepository.cs:17-31 | FirstOrDefault on roles: a stored matching role, or None exactly when none matches |
| AuditDb.AuditDbContext.ListUsers | Repositories/Implementations/UserRepository.cs:57-69 | ToList: every stored user exactly once, as stored, in some order |
| AuditDb.AuditDbContext.ListRoles | Repositories/Implementations/RoleRepository.cs:33-44 | ToList: every stored role exactly once, as stored |
| AuditDb.AuditDbContext.AddUser | Repositories/Implementations/UserRepository.cs:44-49 | Add and SaveChanges: stored iff there is no duplicate key, no missing role and no duplicate email; otherwise nothing changes and the violation is reported. A row that fits its columns keeps the store within its widths |
| AuditDb.AuditDbContext.UpdateUser | Repositories/Implementations/UserRepository.cs:51-55 | Update and SaveChanges: overwrites the row iff it exists, its role exists and no other user holds its email. A row that fits keeps the store within its widths |
| AuditDb.AuditDbContext.AddSecurityEvent | Repositories/Implementations/SecurityEventRepository.cs:17-22 | Appends the event iff its id is fresh and both referenced users exist; otherwise the log is unchanged. An event that fits keeps the widths |
| Principals.FindFirst | Authorization/PermissionAuthorizationHandler.cs:22 | None iff no claim has the type (case-insensitive); otherwise the value of the first claim of that type |
| Principals.FirstPresent | Authorization/PermissionAuthorizationHandler.cs:22-26 | The `??` chain: None iff every listed type is absent; otherwise the value of the first listed type that is present |
| Principals.FirstPresentPicksEarliest | Authorization/PermissionAuthorizationHandler.cs:22-26 | When type k is present and all earlier types are absent, the chain yields type k's value, whatever the later claims are |
| Principals.FirstOfTwoPresent | Services/UserService.cs:25-31 | A two-type chain yields the preferred claim when present, and otherwise the fallback |
| EventQueries.OfCategory | Repositories/Implementations/SecurityEventRepository.cs:26-29 | The WHERE clause: each event occurs exactly as often as stored if it is in the category, otherwise not at all |
| EventQueries.InsertNewestFirst | Repositories/Implementations/SecurityEventRepository.cs:30 | Inserting into a newest-first list keeps it newest first and adds exactly that event |
| EventQueries.SortNewestFirst | Repositories/Implementations/SecurityEventRepository.cs:30 | ORDER BY OccurredUtc DESC: a newest-first permutation of its input |
| EventQueries.Query | Repositories/Implementations/SecurityEventRepository.cs:24-51 | An admissible query answer: newest first, and exactly the stored events of the category |
| EventQueries.NewestFirstIsUnique | Repositories/Implementations/SecurityEventRepository.cs:30 | With distinct timestamps, two newest-first arrangements of the same events are equal |
| EventQueries.QueryResultIsDetermined | Repositories/Implementations/SecurityEventRepository.cs:24-42 | Any admissible answer with distinct timestamps is the one `Query` computes |
| EventQueries.AuthQueryOrdersNewestFirst | Repositories/Implementations/SecurityEventRepository.cs:24-32 | Three authentication events at t1 < t2 < t3 are returned as [t3, t2, t1] |
| EventRecords.LoginSuccessEvent | Services/Implementations/SecurityEventService.cs:18-27 | A record by and about `userId`: an authentication event, never a role change; its details read back to the provider; it fits its columns iff "provider=" plus the provider fits 400 characters |
| EventRecords.LogoutEvent | Services/Implementations/SecurityEventService.cs:32-41 | A record by and about `userId`: an authentication event with details "local sign-out"; it always fits its columns |
| EventRecords.RoleAssignedDetails | Services/Implementations/SecurityEventService.cs:53 | "from=… to=…" is nine characters longer than the two role names |
| EventRecords.RoleAssignedEvent | Services/Implementations/SecurityEventService.cs:46-55 | A role-change record (never an authentication event) with the given author and affected user and no role ids; it fits iff the two names plus nine characters fit 400 |
| EventRecords.ProviderOf | Services/Implementations/SecurityEventService.cs:25 | A parsed provider reproduces the details string "provider=" + value |
| EventRecords.LoginDetailsRoundTrip | Services/Implementations/SecurityEventService.cs:18-30 | A login record's details read back to exactly the provider logged |
| EventRecords.RecordsFallInTheirCategories | Services/Implementations/SecurityEventService.cs:18-58 | Login and logout records are authentication events and never role changes; role assignments are the reverse |
| EventRecords.FreshEventAcceptedIffUsersExist | Data/Context/AuditDbContext.cs:70-78 | An event with a fresh id is accepted iff both its users exist |
| Repositories.UserRepository.GetByEmail | Repositories/Implementations/UserRepository.cs:17-24 | The user with that email, or None iff there is none; by the unique index it is the only such user |
| Repositories.UserRepository.GetByExternalId | Repositories/Implementations/UserRepository.cs:26-33 | A stored user with that external id, or None iff there is none |
| Repositories.UserRepository.GetByIdWithRoleAndClaims | Repositories/Implementations/UserRepository.cs:35-42 | Some iff the id is stored, and then the stored row |
| Repositories.UserRepository.GetById | Repositories/Implementations/UserRepository.cs:71-76 | Some iff the id is stored, and then the stored row |
| Repositories.UserRepository.Create | Repositories/Implementations/UserRepository.cs:44-49 | Success (returning the same user) iff the insert violates nothing; otherwise the fault and no change |
| Repositories.UserRepository.Update | Repositories/Implementations/UserRepository.cs:51-55 | The update outcome and the new state, as UpdateUser |
| Repositories.UserRepository.GetAllWithRoles | Repositories/Implementations/UserRepository.cs:57-62 | Every stored user exactly once |
| Repositories.UserRepository.GetAll | Repositories/Implementations/UserRepository.cs:64-69 | Every stored user exactly once |
| Repositories.RoleRepository.GetById | Repositories/Implementations/RoleRepository.cs:17-23 | Some iff the id is stored, and then the stored role |
| Repositories.RoleRepository.GetByName | Repositories/Implementations/RoleRepository.cs:25-31 | The role with that name, or None iff there is none; it is unique |
| Repositories.RoleRepository.GetAllWithClaims | Repositories/Implementations/RoleRepository.cs:33-39 | Every stored role exactly once |
| Repositories.RoleRepository.GetAll | Repositories/Implementations/RoleRepository.cs:41-44 | Every stored role exactly once |
| Repositories.SecurityEventRepository.Create | Repositories/Implementations/SecurityEventRepository.cs:17-22 | Success with the same event iff it is accepted, and then appended; otherwise the fault and no change |
| Repositories.SecurityEventRepository.GetAuthEvents | Repositories/Implementations/SecurityEventRepository.cs:24-32 | LoginSuccess and Logout events only, all of them, newest first |
| Repositories.SecurityEventRepository.GetRoleChangeEvents | Repositories/Implementations/SecurityEventRepository.cs:34-42 | RoleAssigned events only, all of them, newest first |
| Repositories.SecurityEventRepository.GetAll | Repositories/Implementations/SecurityEventRepository.cs:44-51 | Every event, newest first |
| Repositories.InsertedUserIsFoundByEmail | Repositories/Implementations/UserRepository.cs:17-24 | After an accepted insert, looking up its email finds exactly that user |
| Repositories.InsertedEventJoinsItsCategory | Repositories/Implementations/SecurityEventRepository.cs:17-51 | A new event appears in a query's answer iff it is in the query's category; nothing else in the answer changes |
| LegacyRepositories.UserRepository.GetByEmail | Repositories/UserRepository.cs:16-23 | As the newer GetByEmail: the unique user with that email, or None iff there is none |
| LegacyRepositories.UserRepository.GetByExternalId | Repositories/UserRepository.cs:25-32 | A stored user with that external id, or None iff there is none |
| LegacyRepositories.UserRepository.GetByIdWithRoleAndClaims | Repositories/UserRepository.cs:34-41 | Some iff the id is stored, and then the stored row |
| LegacyRepositories.UserRepository.Create | Repositories/UserRepository.cs:43-48 | Success iff the insert violates nothing; otherwise the fault and no change |
| LegacyRepositories.UserRepository.Update | Repositories/UserRepository.cs:50-54 | The update outcome and the new state |
| LegacyRepositories.UserRepository.GetAllWithRoles | Repositories/UserRepository.cs:56-61 | Every stored user exactly once |
| LegacyRepositories.RoleRepository.GetById | Repositories/RoleRepository.cs:16-22 | Some iff the id is stored, and then the stored role |
| LegacyRepositories.RoleRepository.GetByName | Repositories/RoleRepository.cs:24-30 | The unique role with that name, or None iff there is none |
| LegacyRepositories.RoleRepository.GetAllWithClaims | Repositories/RoleRepository.cs:32-38 | Every stored role exactly once |
| Services.AuthEventViews | Services/Implementations/SecurityEventService.cs:70-81 | One view per event, in order, copying id, type, time and details; the email is the affected user's, or "Unknown" exactly when that user is not stored |
| Services.RoleChangeEventViews | Services/Implementations/SecurityEventService.cs:83-95 | One view per event, in order; actor and target emails are the author's and the affected user's, or "Unknown" when not stored |
| Services.UserSummaries | Services/Implementations/UserService.cs:51-56 | One summary per user, in order, with its id, email and role name, or "Unknown" when the role is not stored |
| Services.EventViewsShowStoredEmails | Services/Implementations/SecurityEventService.cs:70-95 | Over a consistent store, the event views keep the query's order and length, and show the stored users' emails, never "Unknown" |
| Services.SummariesNameStoredRoles | Services/Implementations/UserService.cs:48-57 | Over a consistent store, the user listing has one entry per user, naming its role, never "Unknown" |
| Services.SecurityEventService.LogLoginSuccess | Services/Implementations/SecurityEventService.cs:18-30 | One LoginSuccess record ("provider=…") is appended iff the user exists; otherwise the author foreign-key fault and no change |
| Services.SecurityEventService.LogLogout | Services/Implementations/SecurityEventService.cs:32-44 | One Logout record ("local sign-out") is appended iff the user exists |
| Services.SecurityEventService.LogRoleAssigned | Services/Implementations/SecurityEventService.cs:46-58 | One RoleAssigned record ("from=… to=…") is appended iff both users exist |
| Services.SecurityEventService.GetAuthEvents | Services/Implementations/SecurityEventService.cs:60-63 | An admissible authentication-events answer |
| Services.SecurityEventService.GetRoleChangeEvents | Services/Implementations/SecurityEventService.cs:65-68 | An admissible role-change-events answer |
| Services.SecurityEventService.GetAuthenticationEvents | Services/Implementations/SecurityEventService.cs:70-81 | One view per authentication event, in query order, with the affected user's email |
| Services.SecurityEventService.GetRoleChangeEventDtos | Services/Implementations/SecurityEventService.cs:83-95 | One view per role change, in query order, with the actor's and the target's emails |
| Services.SecondLoginRefreshesFirst | Services/Implementations/UserService.cs:59-97 | After a first login creates a user, the next login with that external id only moves its LastLoginAt; no second user appears |
| Services.UserService.AssignRole | Services/Implementations/UserService.cs:23-46 | false with nothing written iff the user or role is unknown. Otherwise the role is saved, then true iff the audit record is stored; an unknown author throws after the role change is kept |
| Services.UserService.GetAllUsers | Services/Implementations/UserService.cs:48-57 | One summary (id, email, role name or "Unknown") per stored user |
| Services.UserService.CreateOrUpdateUser | Services/Implementations/UserService.cs:59-97 | Known external id: only LastLoginAt moves. Unknown: throws without BasicUser, fails on a taken email, or else creates a BasicUser user stamped `now`. The result carries its role; no event is written |
| LegacyServices.SecurityEventService.LogLoginSuccess | Services/SecurityEventService.cs:15-27 | One LoginSuccess record is appended iff the user exists |
| LegacyServices.SecurityEventService.LogLogout | Services/SecurityEventService.cs:29-41 | One Logout record is appended iff the user exists |
| LegacyServices.SecurityEventService.LogRoleAssigned | Services/SecurityEventService.cs:43-55 | One RoleAssigned record is appended iff both users exist |
| LegacyServices.SecurityEventService.GetAuthEvents | Services/SecurityEventService.cs:57-60 | An admissible authentication-events answer |
| LegacyServices.SecurityEventService.GetRoleChangeEvents | Services/SecurityEventService.cs:62-65 | An admissible role-change-events answer |
| LegacyServices.UserService.HandleLogin | Services/UserService.cs:23-52 | Throws "Email claim not found" or "Subject claim not found" with nothing written; otherwise provisions and records as `LoggedIn` states |
| LegacyServices.UserService.ProvisionAndRecord | Services/UserService.cs:33-51 | A known user is untouched. A first login creates a BasicUser user (failing without the role or on a taken email). Every success appends one LoginSuccess record |
| LegacyServices.UserService.AssignRole | Services/UserService.cs:54-75 | Throws "User not found" / "Role not found" with nothing written; otherwise saves the role, then records it, throwing (with the role change kept) when the author is unknown |
| LegacyServices.PreferredLoginClaimsWin | Services/UserService.cs:25-31 | ClaimTypes.Email wins over "email" and NameIdentifier over "sub" whenever present; otherwise the fallback decides |
| Authorization.DecisionFor | Authorization/PermissionAuthorizationHandler.cs:42-57 | For a found user: Failed iff its role cannot be loaded; Succeeded iff the role links a "permissions" claim with exactly that value; otherwise no decision |
| Authorization.PermissionAuthorizationHandler.HandleRequirement | Authorization/PermissionAuthorizationHandler.cs:17-58 | Fails on a missing or empty external id or an unknown user; otherwise succeeds iff the user's role holds the permission claim, and leaves the decision open if not |
| Authorization.ExternalIdPrecedence | Authorization/PermissionAuthorizationHandler.cs:22-26 | The external id is the value of the first present claim among uid, sub, oid, objectidentifier, nameidentifier |
| Authorization.EmptyPreferredClaimFails | Authorization/PermissionAuthorizationHandler.cs:22-35 | A present but empty higher-precedence claim fails the check, whatever the later claims hold |
| Authorization.GrantNeedsPermissionClaim | Authorization/PermissionAuthorizationHandler.cs:42-57 | Default deny: success implies a stored user with that external id whose existing role links a "permissions" claim with exactly that value |
| Authorization.DecisionIsDetermined | Authorization/PermissionAuthorizationHandler.cs:37-57 | When all users sharing the external id have one role, the decision is unique |
| Authorization.SeedPolicyDecisions | Program.cs:108-112 | Over the seed: BasicUser is never granted, AuthObserver only CanViewAuthEvents, and SecurityAuditor both policies |
| Authentication.OktaSettings.Authority | Authentication/AuthenticationConfig.cs:14 | The domain is exactly the text between "https://" and "/oauth2/default" |
| Authentication.MicrosoftSettings.Authority | Authentication/AuthenticationConfig.cs:22 | The tenant is exactly the text between "https://login.microsoftonline.com/" and "/v2.0" |
| Authentication.OktaDomainOf | Authentication/AuthenticationConfig.cs:14 | A parsed domain rebuilds the given authority |
| Authentication.MicrosoftTenantOf | Authentication/AuthenticationConfig.cs:22 | A parsed tenant rebuilds the given authority |
| Authentication.AuthorityRoundTrips | Authentication/AuthenticationConfig.cs:14-22 | Parsing the authority gives back exactly the configured domain or tenant |
| Authentication.AuthorityDependsOnlyOnHost | Authentication/AuthenticationConfig.cs:9-23 | Two settings have equal authorities iff their domains (tenants) are equal; client id and secret play no part |
| Authentication.DefaultAuthorities | Authentication/AuthenticationConfig.cs:5-22 | With the empty defaults the authorities have an empty host part |
| GraphQL.ResolveRoleChange | GraphQL/Types/SecurityEventType.cs:69-87 | A value iff the type is "ROLE_ASSIGNED" and both role ids are present; it copies the ids and their loaded roles |
| GraphQL.RoleChangeQueryAndResolverDisagree | GraphQL/Types/SecurityEventType.cs:73 | No event the role-change query returns, and no record the services write, gets a `roleChange` value |
| GraphQL.ResolveRoleChangeCorrected | GraphQL/Types/SecurityEventType.cs:69-87 | As the resolver, but testing the type the query and the recorders use |
| GraphQL.RoleChangeRecord | GraphQL/Mutations/Mutation.cs:55-64 | The target user is author and affected user; both role ids are set; the details are "User role changed to " + the role name; it is a role-change event iff its type is "RoleAssigned"; it fits iff type and details fit |
| GraphQL.AssignedResult | GraphQL/Mutations/Mutation.cs:68-95 | The success result: the user with its new role id and role, and the record with its details (or "") and the user's email as actor and target |
| GraphQL.MutationRecordVisibility | GraphQL/Mutations/Mutation.cs:55-64 | A mutation record is queried as a role change iff its type is "RoleAssigned", and resolved iff it is "ROLE_ASSIGNED": never both |
| GraphQL.CorrectedResolverSeesMutationRecords | GraphQL/Mutations/Mutation.cs:55-64 | With the corrected resolver, a "RoleAssigned" mutation record is both listed and resolved to the change it made |
| GraphQL.Mutation.AssignUserRole | GraphQL/Mutations/Mutation.cs:19-105 | "User not found" / "Role not found" with nothing written; otherwise the role is saved, then the record. A refused record becomes an error result with the role change kept |
| GraphQL.Mutation.LogLogout | GraphQL/Mutations/Mutation.cs:111-132 | success iff the Logout record is stored (iff the user exists); otherwise an "Error logging logout: " message and no change |
| Controllers.DisplayName | Controllers/UsersController.cs:41 | A present name is kept, even when empty; only a null name falls back to the email |
| Controllers.UsersController.GetUsers | Controllers/UsersController.cs:23-27 | Ok with one summary per stored user |
| Controllers.UsersController.Login | Controllers/UsersController.cs:30-58 | An invalid request gives BadRequest with nothing written. Otherwise the user is provisioned as CreateOrUpdateUser says, one LoginSuccess is appended, and the answer names the user's role |
| Controllers.UsersController.Logout | Controllers/UsersController.cs:61-72 | A null request or Guid.Empty gives BadRequest; otherwise Ok iff the Logout record is stored, else the foreign-key fault |

## Left out

- async/await, logging, dependency injection and eager loading (`Include`) are not modelled. Navigation properties are derived from the foreign-key columns.
- Concurrency is not modelled. Each call runs alone on one context, and two first logins racing on the same external id are not modelled.
- No transactions: a write that `SaveChanges` refuses leaves the tables unchanged. The state left in the change tracker after a refused write is not modelled.
- String comparison in queries is exact ordinal equality; the database collation is not modelled.
- Case-insensitive claim-type matching folds only ASCII letters.
- `DateTime.UtcNow` is one `now` parameter per call. The two reads in the user-creation path give the same instant in the model.
- `Guid.NewGuid()` is a caller-supplied id. Event-service methods require it to be fresh. The mutation does not, so that its duplicate-key error path is modelled.
- `Guid.ToString()` in the login response is left out: the id is returned as a Guid.
- The shared `EventTypes` constants are not part of this model. The event type the mutation writes is a parameter.
- The older event repository implementation is not part of this model. The older event service uses the newer `SecurityEventRepository`, which has the same operations.
- `[Required]` only means non-null, which the value types already ensure.
- `[MaxLength]` is not a rejection path of the writes. The model accepts an over-long value that the database refuses (a 321-character email, say), so `Valid()` does not include the widths. The widths (`WithinLimits`) are proved for the seed, and `AuditDb.WritesKeepLimits` shows that a write keeps them exactly when the written row fits.
- A null `provider` is not modelled: providers are strings, so the null case (which writes the details "provider=") is not covered.
- Login requests with a null email are not modelled: email and external id are strings, checked only for emptiness.
- `[Authorize]` attributes and the authentication middleware are not modelled; the permission handler is modelled directly.
- The other controllers, the GraphQL query type and the object types other than `roleChange` are not part of this model.
- LegacyServices.UserService.HandleLogin: its body is split into `ProvisionAndRecord` to keep each proof small. The composition is stated through `LoggedIn`.
- EventQueries.Query: picks one order among events with equal timestamps. The queries' contracts admit every order (`IsQueryResult`).

## Findings

| source | as written | input that shows it | evidently intended | confidence | as-written member | corrected member |
|---|---|---|---|---|---|---|
| GraphQL/Types/SecurityEventType.cs:73 | The `roleChange` resolver tests `EventType == "ROLE_ASSIGNED"`. The role-change query (Repositories/Implementations/SecurityEventRepository.cs:39) and the event services (Services/Implementations/SecurityEventService.cs:50) use "RoleAssigned" | Any event of type "RoleAssigned" with both role ids set, as returned by the role-change query: the resolver yields null | The resolver and the query agree on one type string. Which side to change is a guess: the same file describes the type as "ROLE_ASSIGNED" (lines 22, 51-68), and the value of the shared `EventTypes.RoleAssigned` constant is not part of this model. Either the resolver tests "RoleAssigned" (the correction modelled here), or the query and the recorders write "ROLE_ASSIGNED". `GraphQL.MutationRecordVisibility` shows the mismatch for either choice | not executed | GraphQL.RoleChangeQueryAndResolverDisagree | GraphQL.ResolveRoleChangeCorrected, GraphQL.CorrectedResolverSeesMutationRecords |
