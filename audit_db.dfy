/**
 * The identity store (Data/Context/AuditDbContext.cs): the five tables, the key,
 * unique-index and foreign-key constraints declared in OnModelCreating, the seed
 * rows of SeedData, and the row-level writes that SaveChanges performs.
 */
module AuditDb {
  import opened Wrappers
  import opened Entities

  /** The contents of the five tables. */
  datatype Tables = Tables(
    users: map<Guid, User>,
    roles: map<Guid, Role>,
    claims: map<Guid, Claim>,
    roleClaims: set<RoleClaim>,
    securityEvents: seq<SecurityEvent>)

  // ---------------------------------------------------------------------------
  // Constraints declared in OnModelCreating
  // ---------------------------------------------------------------------------

  /** Each table is keyed by its entity's Id. */
  ghost predicate Keyed(t: Tables) {
    && (forall id :: id in t.users ==> t.users[id].id == id)
    && (forall id :: id in t.roles ==> t.roles[id].id == id)
    && (forall id :: id in t.claims ==> t.claims[id].id == id)
  }

  /** Unique index on User.Email (ExternalId is indexed but NOT unique). */
  ghost predicate EmailsUnique(users: map<Guid, User>) {
    forall a, b :: a in users && b in users && users[a].email == users[b].email ==> a == b
  }

  /** Unique index on Role.Name. */
  ghost predicate RoleNamesUnique(roles: map<Guid, Role>) {
    forall a, b :: a in roles && b in roles && roles[a].name == roles[b].name ==> a == b
  }

  /** Unique index on the (Type, Value) pair of a Claim. */
  ghost predicate ClaimPairsUnique(claims: map<Guid, Claim>) {
    forall a, b ::
      a in claims && b in claims && claims[a].claimType == claims[b].claimType && claims[a].value == claims[b].value
      ==> a == b
  }

  /** Foreign key User.RoleId -> Role.Id. */
  ghost predicate UserRolesExist(t: Tables) {
    forall id :: id in t.users ==> t.users[id].roleId in t.roles
  }

  /** Foreign keys RoleClaim.RoleId -> Role.Id and RoleClaim.ClaimId -> Claim.Id. */
  ghost predicate LinksResolve(t: Tables) {
    forall l :: l in t.roleClaims ==> l.roleId in t.roles && l.claimId in t.claims
  }

  /** Foreign keys SecurityEvent.AuthorUserId and SecurityEvent.AffectedUserId -> User.Id. */
  ghost predicate EventUsersExist(t: Tables) {
    forall i :: 0 <= i < |t.securityEvents| ==>
      t.securityEvents[i].authorUserId in t.users && t.securityEvents[i].affectedUserId in t.users
  }

  /** SecurityEvent.Id is the key of the event table. */
  ghost predicate EventIdsUnique(events: seq<SecurityEvent>) {
    forall i, j :: 0 <= i < j < |events| ==> events[i].id != events[j].id
  }

  /**
   * Every constraint the database enforces. The composite key (RoleId, ClaimId)
   * of RoleClaims holds by construction: the links form a set.
   */
  ghost predicate Consistent(t: Tables) {
    && Keyed(t)
    && EmailsUnique(t.users)
    && RoleNamesUnique(t.roles)
    && ClaimPairsUnique(t.claims)
    && UserRolesExist(t)
    && LinksResolve(t)
    && EventUsersExist(t)
    && EventIdsUnique(t.securityEvents)
  }

  /** The [MaxLength] widths hold for every row. */
  ghost predicate WithinLimits(t: Tables) {
    && (forall id :: id in t.users ==> UserWithinLimits(t.users[id]))
    && (forall id :: id in t.roles ==> RoleWithinLimits(t.roles[id]))
    && (forall id :: id in t.claims ==> ClaimWithinLimits(t.claims[id]))
    && (forall i :: 0 <= i < |t.securityEvents| ==> EventWithinLimits(t.securityEvents[i]))
  }

  /** Restrict on delete: a role that some user references cannot be removed. */
  lemma {:induction false} ReferencedRoleCannotBeDeleted(t: Tables, roleId: Guid, userId: Guid)
    requires Consistent(t)
    requires userId in t.users && t.users[userId].roleId == roleId
    ensures roleId in t.roles
    ensures !Consistent(t.(roles := t.roles - {roleId}))
  {
    var t' := t.(roles := t.roles - {roleId});
    assert t'.users[userId].roleId !in t'.roles;
  }

  /** Restrict on delete: a user that an event references (as author or as affected user) cannot be removed. */
  lemma {:induction false} ReferencedUserCannotBeDeleted(t: Tables, userId: Guid, i: nat)
    requires Consistent(t)
    requires i < |t.securityEvents|
    requires t.securityEvents[i].authorUserId == userId || t.securityEvents[i].affectedUserId == userId
    ensures userId in t.users
    ensures !Consistent(t.(users := t.users - {userId}))
  {
    var t' := t.(users := t.users - {userId});
    assert userId !in t'.users;
    assert !(t'.securityEvents[i].authorUserId in t'.users && t'.securityEvents[i].affectedUserId in t'.users);
  }

  // ---------------------------------------------------------------------------
  // Permissions held by a role
  // ---------------------------------------------------------------------------

  const PermissionsClaimType := "permissions"
  const ViewAuthEventsPermission := "Audit.ViewAuthEvents"
  const RoleChangesPermission := "Audit.RoleChanges"

  /** A claim of type "permissions" whose value is exactly `permission`. */
  predicate IsPermissionClaim(c: Claim, permission: string) {
    c.claimType == PermissionsClaimType && c.value == permission
  }

  /** Some claim linked to the role is the permission claim for `permission`. */
  predicate RoleGrants(t: Tables, roleId: Guid, permission: string) {
    exists l :: l in t.roleClaims && l.roleId == roleId && l.claimId in t.claims
      && IsPermissionClaim(t.claims[l.claimId], permission)
  }

  // ---------------------------------------------------------------------------
  // SeedData
  // ---------------------------------------------------------------------------

  const BasicUserRoleId: Guid := 0x1111_1111_1111_1111_1111_1111_1111_1111
  const AuthObserverRoleId: Guid := 0x2222_2222_2222_2222_2222_2222_2222_2222
  const SecurityAuditorRoleId: Guid := 0x3333_3333_3333_3333_3333_3333_3333_3333
  const ViewAuthEventsClaimId: Guid := 0x4444_4444_4444_4444_4444_4444_4444_4444
  const RoleChangesClaimId: Guid := 0x5555_5555_5555_5555_5555_5555_5555_5555

  const BasicUserRoleName := "BasicUser"

  const BasicUserRole := Role(BasicUserRoleId, BasicUserRoleName,
    Some("Default role for all new users with no special permissions"))
  const AuthObserverRole := Role(AuthObserverRoleId, "AuthObserver", Some("Can view authentication events"))
  const SecurityAuditorRole := Role(SecurityAuditorRoleId, "SecurityAuditor", Some("Can view all events and manage roles"))

  const SeedRoles: map<Guid, Role> :=
    map[BasicUserRoleId := BasicUserRole, AuthObserverRoleId := AuthObserverRole, SecurityAuditorRoleId := SecurityAuditorRole]

  const SeedClaims: map<Guid, Claim> := map[
    ViewAuthEventsClaimId := Claim(ViewAuthEventsClaimId, PermissionsClaimType, ViewAuthEventsPermission),
    RoleChangesClaimId := Claim(RoleChangesClaimId, PermissionsClaimType, RoleChangesPermission)]

  const SeedRoleClaims: set<RoleClaim> := {
    RoleClaim(AuthObserverRoleId, ViewAuthEventsClaimId),
    RoleClaim(SecurityAuditorRoleId, ViewAuthEventsClaimId),
    RoleClaim(SecurityAuditorRoleId, RoleChangesClaimId)}

  /** The store as seeded: three roles, two claims, three links, no users and no events. */
  const SeedTables := Tables(map[], SeedRoles, SeedClaims, SeedRoleClaims, [])

  /** The seeded store satisfies every constraint and every column width. */
  lemma SeedIsConsistent()
    ensures Consistent(SeedTables) && WithinLimits(SeedTables)
  {
    assert SeedTables.roles.Keys == {BasicUserRoleId, AuthObserverRoleId, SecurityAuditorRoleId};
    assert SeedTables.claims.Keys == {ViewAuthEventsClaimId, RoleChangesClaimId};
    assert RoleNamesUnique(SeedTables.roles);
    assert ClaimPairsUnique(SeedTables.claims);
    assert LinksResolve(SeedTables);
  }

  /**
   * The seeded grants: BasicUser holds no permission, AuthObserver only
   * Audit.ViewAuthEvents, SecurityAuditor both seeded permissions.
   */
  lemma {:induction false} SeedGrants(permission: string)
    ensures !RoleGrants(SeedTables, BasicUserRoleId, permission)
    ensures RoleGrants(SeedTables, AuthObserverRoleId, permission) <==> permission == ViewAuthEventsPermission
    ensures RoleGrants(SeedTables, SecurityAuditorRoleId, permission)
      <==> permission == ViewAuthEventsPermission || permission == RoleChangesPermission
  {
    var view := RoleClaim(AuthObserverRoleId, ViewAuthEventsClaimId);
    var auditorView := RoleClaim(SecurityAuditorRoleId, ViewAuthEventsClaimId);
    var auditorChanges := RoleClaim(SecurityAuditorRoleId, RoleChangesClaimId);
    assert SeedTables.roleClaims == {view, auditorView, auditorChanges};
    if permission == ViewAuthEventsPermission {
      assert view in SeedTables.roleClaims && IsPermissionClaim(SeedTables.claims[view.claimId], permission);
      assert auditorView in SeedTables.roleClaims;
    }
    if permission == RoleChangesPermission {
      assert auditorChanges in SeedTables.roleClaims;
    }
  }

  // ---------------------------------------------------------------------------
  // Failures of SaveChanges
  // ---------------------------------------------------------------------------

  /** The constraint a rejected write violated. */
  datatype Violation =
    | DuplicateKey(table: string)
    | UniqueIndex(index: string)
    | ForeignKey(constraint: string)
    | RowMissing(table: string)

  /** An exception: InvalidOperationException with its message, or a failed SaveChanges. */
  datatype Fault = InvalidOperation(message: string) | DbUpdate(violation: Violation) {
    function Message(): string {
      match this
      case InvalidOperation(m) => m
      case DbUpdate(RowMissing(_)) => ConcurrencyFailureMessage
      case DbUpdate(_) => SaveChangesFailedMessage
    }
  }

  const SaveChangesFailedMessage := "An error occurred while saving the entity changes. See the inner exception for details."
  const ConcurrencyFailureMessage := "The database operation was expected to affect 1 row(s), but actually affected 0 row(s); "
    + "data may have been modified or deleted since entities were loaded. "
    + "See https://go.microsoft.com/fwlink/?LinkId=527962 for information on understanding and handling optimistic concurrency exceptions."

  /** Why inserting `u` would fail, if it would. */
  function InsertUserViolation(t: Tables, u: User): Option<Violation> {
    if u.id in t.users then Some(DuplicateKey("Users"))
    else if u.roleId !in t.roles then Some(ForeignKey("FK_Users_Roles_RoleId"))
    else if exists id :: id in t.users && t.users[id].email == u.email then Some(UniqueIndex("IX_Users_Email"))
    else None
  }

  /** Why overwriting the row `u.id` with `u` would fail, if it would. */
  function UpdateUserViolation(t: Tables, u: User): Option<Violation> {
    if u.id !in t.users then Some(RowMissing("Users"))
    else if u.roleId !in t.roles then Some(ForeignKey("FK_Users_Roles_RoleId"))
    else if exists id :: id in t.users && id != u.id && t.users[id].email == u.email then Some(UniqueIndex("IX_Users_Email"))
    else None
  }

  /** Why appending `e` would fail, if it would. */
  function InsertEventViolation(t: Tables, e: SecurityEvent): Option<Violation> {
    if exists i :: 0 <= i < |t.securityEvents| && t.securityEvents[i].id == e.id then Some(DuplicateKey("SecurityEvents"))
    else if e.authorUserId !in t.users then Some(ForeignKey("FK_SecurityEvents_Users_AuthorUserId"))
    else if e.affectedUserId !in t.users then Some(ForeignKey("FK_SecurityEvents_Users_AffectedUserId"))
    else None
  }

  /** The outcome SaveChanges reports for a write with the given violation. */
  function Saved(v: Option<Violation>): Outcome<Fault> {
    match v
    case None => Pass
    case Some(x) => Fail(DbUpdate(x))
  }

  /** An accepted user insert keeps every constraint. */
  lemma {:induction false} InsertUserKeepsConsistent(t: Tables, u: User)
    requires Consistent(t) && InsertUserViolation(t, u).None?
    ensures Consistent(t.(users := t.users[u.id := u]))
  {
    var t' := t.(users := t.users[u.id := u]);
    assert forall id :: id in t.users ==> t.users[id].email != u.email;
    assert EmailsUnique(t'.users);
    assert EventUsersExist(t');
  }

  /** Writing `u` keeps emails unique when no other user holds its email. */
  lemma {:induction false} WriteKeepsEmailsUnique(users: map<Guid, User>, u: User)
    requires EmailsUnique(users)
    requires forall id :: id in users && id != u.id ==> users[id].email != u.email
    ensures EmailsUnique(users[u.id := u])
  {
    var users' := users[u.id := u];
    forall a, b | a in users' && b in users' && users'[a].email == users'[b].email
      ensures a == b
    {
      if a != u.id && b != u.id {
        assert users[a].email == users[b].email;
      }
    }
  }

  /** An accepted user update keeps every constraint. */
  lemma {:induction false} UpdateUserKeepsConsistent(t: Tables, u: User)
    requires Consistent(t) && UpdateUserViolation(t, u).None?
    ensures Consistent(t.(users := t.users[u.id := u]))
  {
    var t' := t.(users := t.users[u.id := u]);
    assert u.id in t.users && u.roleId in t.roles;
    assert !exists id :: id in t.users && id != u.id && t.users[id].email == u.email;
    WriteKeepsEmailsUnique(t.users, u);
    assert Keyed(t');
    assert UserRolesExist(t');
    assert EventUsersExist(t') by {
      assert t'.users.Keys == t.users.Keys;
    }
  }

  /** An accepted event insert keeps every constraint. */
  lemma {:induction false} InsertEventKeepsConsistent(t: Tables, e: SecurityEvent)
    requires Consistent(t) && InsertEventViolation(t, e).None?
    ensures Consistent(t.(securityEvents := t.securityEvents + [e]))
  {
    var t' := t.(securityEvents := t.securityEvents + [e]);
    assert forall i :: 0 <= i < |t.securityEvents| ==> t.securityEvents[i].id != e.id;
    assert EventIdsUnique(t'.securityEvents);
    assert EventUsersExist(t');
  }

  /**
   * The [MaxLength] widths survive a write exactly when the row written fits its
   * columns: an over-long row is the only way a write breaks them.
   */
  lemma {:induction false} WritesKeepLimits(t: Tables, u: User, e: SecurityEvent)
    requires WithinLimits(t)
    ensures WithinLimits(t.(users := t.users[u.id := u])) <==> UserWithinLimits(u)
    ensures WithinLimits(t.(securityEvents := t.securityEvents + [e])) <==> EventWithinLimits(e)
  {
    var users := t.users[u.id := u];
    assert u.id in users && users[u.id] == u;
    assert forall id :: id in users && id != u.id ==> id in t.users && users[id] == t.users[id];
    var events := t.securityEvents + [e];
    assert events[|t.securityEvents|] == e;
    assert forall i :: 0 <= i < |t.securityEvents| ==> events[i] == t.securityEvents[i];
  }

  // ---------------------------------------------------------------------------
  // Row lookups (FirstOrDefaultAsync without ORDER BY: any matching row)
  // ---------------------------------------------------------------------------

  datatype UserKey = ByEmail(email: string) | ByExternalId(externalId: string) | ById(id: Guid)

  predicate UserMatches(u: User, key: UserKey) {
    match key
    case ByEmail(e) => u.email == e
    case ByExternalId(x) => u.externalId == x
    case ById(id) => u.id == id
  }

  /** `r` is what FirstOrDefault may return: a stored matching user, or null exactly when none matches. */
  ghost predicate FoundUser(users: map<Guid, User>, key: UserKey, r: Option<User>) {
    match r
    case None => forall id :: id in users ==> !UserMatches(users[id], key)
    case Some(u) => u.id in users && users[u.id] == u && UserMatches(u, key)
  }

  datatype RoleKey = RoleById(id: Guid) | RoleByName(name: string)

  predicate RoleMatches(r: Role, key: RoleKey) {
    match key
    case RoleById(id) => r.id == id
    case RoleByName(n) => r.name == n
  }

  ghost predicate FoundRole(roles: map<Guid, Role>, key: RoleKey, r: Option<Role>) {
    match r
    case None => forall id :: id in roles ==> !RoleMatches(roles[id], key)
    case Some(x) => x.id in roles && roles[x.id] == x && RoleMatches(x, key)
  }

  /** `r` lists every stored user exactly once, in some order. */
  ghost predicate ListsEveryUser(users: map<Guid, User>, r: seq<User>) {
    && |r| == |users|
    && (forall i :: 0 <= i < |r| ==> r[i].id in users && users[r[i].id] == r[i])
    && (forall i, j :: 0 <= i < j < |r| ==> r[i].id != r[j].id)
    && (forall id :: id in users ==> exists i :: 0 <= i < |r| && r[i].id == id)
  }

  /** `r` lists every stored role exactly once, in some order. */
  ghost predicate ListsEveryRole(roles: map<Guid, Role>, r: seq<Role>) {
    && |r| == |roles|
    && (forall i :: 0 <= i < |r| ==> r[i].id in roles && roles[r[i].id] == r[i])
    && (forall i, j :: 0 <= i < j < |r| ==> r[i].id != r[j].id)
    && (forall id :: id in roles ==> exists i :: 0 <= i < |r| && r[i].id == id)
  }

  /** Reads the rows of a table in an unspecified order (ToListAsync without ORDER BY). */
  method ListRows<V>(m: map<Guid, V>) returns (r: seq<V>, ghost order: seq<Guid>)
    ensures |r| == |order| == |m|
    ensures forall i :: 0 <= i < |order| ==> order[i] in m && r[i] == m[order[i]]
    ensures forall i, j :: 0 <= i < j < |order| ==> order[i] != order[j]
    ensures forall k :: k in m ==> k in order
  {
    r, order := [], [];
    var pending := m.Keys;
    while pending != {}
      invariant pending <= m.Keys
      invariant |order| == |r| && |order| + |pending| == |m|
      invariant forall i :: 0 <= i < |order| ==> order[i] in m && r[i] == m[order[i]] && order[i] !in pending
      invariant forall i, j :: 0 <= i < j < |order| ==> order[i] != order[j]
      invariant forall k :: k in m ==> k in pending || k in order
      decreases pending
    {
      var k :| k in pending;
      r, order := r + [m[k]], order + [k];
      pending := pending - {k};
    }
  }

  // ---------------------------------------------------------------------------
  // The context
  // ---------------------------------------------------------------------------

  class AuditDbContext {
    var users: map<Guid, User>
    var roles: map<Guid, Role>
    var claims: map<Guid, Claim>
    var roleClaims: set<RoleClaim>
    var securityEvents: seq<SecurityEvent>

    function State(): Tables
      reads this
    {
      Tables(users, roles, claims, roleClaims, securityEvents)
    }

    ghost predicate Valid()
      reads this
    {
      Consistent(State())
    }

    ghost function EventIds(): set<Guid>
      reads this
    {
      set e | e in securityEvents :: e.id
    }

    /** A freshly created and seeded database. */
    constructor ()
      ensures Valid() && State() == SeedTables
    {
      users, roles, claims, roleClaims, securityEvents := map[], SeedRoles, SeedClaims, SeedRoleClaims, [];
      SeedIsConsistent();
    }

    method FindUser(key: UserKey) returns (r: Option<User>)
      requires Valid()
      ensures FoundUser(users, key, r)
    {
      if exists id :: id in users && UserMatches(users[id], key) {
        var id :| id in users && UserMatches(users[id], key);
        r := Some(users[id]);
      } else {
        r := None;
      }
    }

    method FindRole(key: RoleKey) returns (r: Option<Role>)
      requires Valid()
      ensures FoundRole(roles, key, r)
    {
      if exists id :: id in roles && RoleMatches(roles[id], key) {
        var id :| id in roles && RoleMatches(roles[id], key);
        r := Some(roles[id]);
      } else {
        r := None;
      }
    }

    method ListUsers() returns (r: seq<User>)
      requires Valid()
      ensures ListsEveryUser(users, r)
    {
      ghost var order;
      r, order := ListRows(users);
      forall id | id in users ensures exists i :: 0 <= i < |r| && r[i].id == id {
        var i :| 0 <= i < |order| && order[i] == id;
        assert r[i].id == id;
      }
    }

    method ListRoles() returns (r: seq<Role>)
      requires Valid()
      ensures ListsEveryRole(roles, r)
    {
      ghost var order;
      r, order := ListRows(roles);
      forall id | id in roles ensures exists i :: 0 <= i < |r| && r[i].id == id {
        var i :| 0 <= i < |order| && order[i] == id;
        assert r[i].id == id;
      }
    }

    /** Users.Add(u) followed by SaveChanges. */
    method AddUser(u: User) returns (r: Outcome<Fault>)
      requires Valid()
      modifies this
      ensures Valid()
      ensures r == Saved(InsertUserViolation(old(State()), u))
      ensures State() == if r.Pass? then old(State()).(users := old(users)[u.id := u]) else old(State())
      ensures old(WithinLimits(State())) && UserWithinLimits(u) ==> WithinLimits(State())
    {
      r := Saved(InsertUserViolation(State(), u));
      if r.Pass? {
        InsertUserKeepsConsistent(State(), u);
        if WithinLimits(State()) {
          WritesKeepLimits(State(), u, NewSecurityEvent(0, 0));
        }
        users := users[u.id := u];
      }
    }

    /** Users.Update(u) followed by SaveChanges: overwrites the row with key u.Id. */
    method UpdateUser(u: User) returns (r: Outcome<Fault>)
      requires Valid()
      modifies this
      ensures Valid()
      ensures r == Saved(UpdateUserViolation(old(State()), u))
      ensures State() == if r.Pass? then old(State()).(users := old(users)[u.id := u]) else old(State())
      ensures old(WithinLimits(State())) && UserWithinLimits(u) ==> WithinLimits(State())
    {
      r := Saved(UpdateUserViolation(State(), u));
      if r.Pass? {
        UpdateUserKeepsConsistent(State(), u);
        if WithinLimits(State()) {
          WritesKeepLimits(State(), u, NewSecurityEvent(0, 0));
        }
        users := users[u.id := u];
      }
    }

    /** SecurityEvents.Add(e) followed by SaveChanges: the only write to the event table. */
    method AddSecurityEvent(e: SecurityEvent) returns (r: Outcome<Fault>)
      requires Valid()
      modifies this
      ensures Valid()
      ensures r == Saved(InsertEventViolation(old(State()), e))
      ensures State() == if r.Pass? then old(State()).(securityEvents := old(securityEvents) + [e]) else old(State())
      ensures old(WithinLimits(State())) && EventWithinLimits(e) ==> WithinLimits(State())
    {
      r := Saved(InsertEventViolation(State(), e));
      if r.Pass? {
        InsertEventKeepsConsistent(State(), e);
        if WithinLimits(State()) {
          WritesKeepLimits(State(), NewUser(0, 0), e);
        }
        securityEvents := securityEvents + [e];
      }
    }
  }
}
