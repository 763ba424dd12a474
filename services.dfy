/**
 * The application services (Services/Implementations): recording security
 * events and their read-side projections, role assignment, the user listing
 * and login provisioning by external id.
 *
 * Every service works on the one `AuditDbContext` its repositories share
 * (`Wired`). `DateTime.UtcNow` is the parameter `now`; `Guid.NewGuid()` is a
 * parameter that is not yet a key of its table. An exception is a `Failure`
 * (or `Fail`) carrying the `Fault`; writes made before it stay in the store.
 */
module Services {
  import opened Wrappers
  import opened Entities
  import opened AuditDb
  import opened EventQueries
  import opened EventRecords
  import opened Repositories

  /** Shown in place of an email or a role name that cannot be loaded. */
  const Unknown := "Unknown"

  // ---------------------------------------------------------------------------
  // Read-side projections
  // ---------------------------------------------------------------------------

  /** The row of GetAuthenticationEventsAsync. */
  datatype AuthEventView = AuthEventView(
    id: Guid, eventType: string, occurredUtc: Instant, details: Option<string>, userEmail: string)

  /** The row of GetRoleChangeEventDtosAsync. */
  datatype RoleChangeEventView = RoleChangeEventView(
    id: Guid, eventType: string, occurredUtc: Instant, details: Option<string>,
    actorEmail: string, targetEmail: string)

  /** The row of GetAllUsersAsync. */
  datatype UserSummary = UserSummary(id: Guid, email: string, currentRole: string)

  /** `user?.Email ?? "Unknown"` for the user loaded through a foreign key. */
  function EmailOrUnknown(users: map<Guid, User>, id: Guid): string {
    if id in users then users[id].email else Unknown
  }

  /** `user.Role?.Name ?? "Unknown"`. */
  function RoleNameOrUnknown(roles: map<Guid, Role>, roleId: Guid): string {
    if roleId in roles then roles[roleId].name else Unknown
  }

  /** One view per event, in order; the email is the affected user's, or "Unknown" when that user is not stored. */
  function AuthEventViews(users: map<Guid, User>, es: seq<SecurityEvent>): (r: seq<AuthEventView>)
    ensures |r| == |es|
    ensures forall i :: 0 <= i < |es| ==>
      && r[i].id == es[i].id && r[i].eventType == es[i].eventType
      && r[i].occurredUtc == es[i].occurredUtc && r[i].details == es[i].details
      && (es[i].affectedUserId in users ==> r[i].userEmail == users[es[i].affectedUserId].email)
      && (es[i].affectedUserId !in users ==> r[i].userEmail == Unknown)
  {
    seq(|es|, i requires 0 <= i < |es| =>
      AuthEventView(es[i].id, es[i].eventType, es[i].occurredUtc, es[i].details,
        EmailOrUnknown(users, es[i].affectedUserId)))
  }

  /** One view per event, in order, with the author's and the affected user's emails or "Unknown". */
  function RoleChangeEventViews(users: map<Guid, User>, es: seq<SecurityEvent>): (r: seq<RoleChangeEventView>)
    ensures |r| == |es|
    ensures forall i :: 0 <= i < |es| ==>
      && r[i].id == es[i].id && r[i].eventType == es[i].eventType
      && r[i].occurredUtc == es[i].occurredUtc && r[i].details == es[i].details
      && (es[i].authorUserId in users ==> r[i].actorEmail == users[es[i].authorUserId].email)
      && (es[i].authorUserId !in users ==> r[i].actorEmail == Unknown)
      && (es[i].affectedUserId in users ==> r[i].targetEmail == users[es[i].affectedUserId].email)
      && (es[i].affectedUserId !in users ==> r[i].targetEmail == Unknown)
  {
    seq(|es|, i requires 0 <= i < |es| =>
      RoleChangeEventView(es[i].id, es[i].eventType, es[i].occurredUtc, es[i].details,
        EmailOrUnknown(users, es[i].authorUserId), EmailOrUnknown(users, es[i].affectedUserId)))
  }

  /** One summary per user, in order, naming the user's role or "Unknown" when it cannot be loaded. */
  function UserSummaries(roles: map<Guid, Role>, us: seq<User>): (r: seq<UserSummary>)
    ensures |r| == |us|
    ensures forall i :: 0 <= i < |us| ==>
      && r[i].id == us[i].id && r[i].email == us[i].email
      && (us[i].roleId in roles ==> r[i].currentRole == roles[us[i].roleId].name)
      && (us[i].roleId !in roles ==> r[i].currentRole == Unknown)
  {
    seq(|us|, i requires 0 <= i < |us| => UserSummary(us[i].id, us[i].email, RoleNameOrUnknown(roles, us[i].roleId)))
  }

  /**
   * Over a consistent store the projections never fall back to "Unknown": every
   * event of a query result names stored users, and the views keep the order and
   * the length of the result, showing those users' emails.
   */
  lemma {:induction false} EventViewsShowStoredEmails(t: Tables, c: EventCategory, es: seq<SecurityEvent>)
    requires Consistent(t) && IsQueryResult(t.securityEvents, c, es)
    ensures |AuthEventViews(t.users, es)| == |es| == |RoleChangeEventViews(t.users, es)|
    ensures forall i :: 0 <= i < |es| ==>
      && es[i].authorUserId in t.users && es[i].affectedUserId in t.users
      && AuthEventViews(t.users, es)[i] == AuthEventView(es[i].id, es[i].eventType, es[i].occurredUtc, es[i].details, t.users[es[i].affectedUserId].email)
      && RoleChangeEventViews(t.users, es)[i].actorEmail == t.users[es[i].authorUserId].email
      && RoleChangeEventViews(t.users, es)[i].targetEmail == t.users[es[i].affectedUserId].email
  {
    forall i | 0 <= i < |es| ensures es[i].authorUserId in t.users && es[i].affectedUserId in t.users {
      assert multiset(es)[es[i]] > 0;
      assert es[i] in multiset(t.securityEvents);
      var j :| 0 <= j < |t.securityEvents| && t.securityEvents[j] == es[i];
    }
  }

  /**
   * Over a consistent store the user listing has one entry per stored user, each
   * showing the name of the user's role.
   */
  lemma {:induction false} SummariesNameStoredRoles(t: Tables, us: seq<User>)
    requires Consistent(t) && ListsEveryUser(t.users, us)
    ensures |UserSummaries(t.roles, us)| == |t.users|
    ensures forall i :: 0 <= i < |us| ==>
      us[i].roleId in t.roles && UserSummaries(t.roles, us)[i] == UserSummary(us[i].id, us[i].email, t.roles[us[i].roleId].name)
    ensures forall id :: id in t.users ==> exists i :: 0 <= i < |us| && UserSummaries(t.roles, us)[i].id == id
  {
    var r := UserSummaries(t.roles, us);
    forall i | 0 <= i < |us|
      ensures us[i].roleId in t.roles && r[i] == UserSummary(us[i].id, us[i].email, t.roles[us[i].roleId].name)
    {
      assert us[i].id in t.users && t.users[us[i].id] == us[i];
    }
    forall id | id in t.users ensures exists i :: 0 <= i < |us| && r[i].id == id {
      var i :| 0 <= i < |us| && us[i].id == id;
      assert r[i].id == id;
    }
  }

  // ---------------------------------------------------------------------------
  // SecurityEventService
  // ---------------------------------------------------------------------------

  class SecurityEventService {
    const securityEventRepository: SecurityEventRepository

    constructor (securityEventRepository: SecurityEventRepository)
      ensures this.securityEventRepository == securityEventRepository
    {
      this.securityEventRepository := securityEventRepository;
    }

    function Db(): AuditDbContext {
      securityEventRepository.db
    }

    /** LogLoginSuccessAsync: append one LoginSuccess record for `userId`; it is stored iff the user exists. */
    method LogLoginSuccess(userId: Guid, provider: string, eventId: Guid, now: Instant) returns (r: Outcome<Fault>)
      requires Db().Valid() && FreshEventId(Db().State(), eventId)
      modifies Db()
      ensures Db().Valid()
      ensures r.Pass? <==> userId in old(Db().users)
      ensures r.Fail? ==> r.error == DbUpdate(ForeignKey("FK_SecurityEvents_Users_AuthorUserId"))
      ensures Db().State() == if r.Pass?
        then old(Db().State()).(securityEvents := old(Db().securityEvents) + [LoginSuccessEvent(eventId, userId, provider, now)])
        else old(Db().State())
    {
      var e := LoginSuccessEvent(eventId, userId, provider, now);
      FreshEventAcceptedIffUsersExist(Db().State(), e);
      var created := securityEventRepository.Create(e);
      r := if created.Success? then Pass else Fail(created.error);
    }

    /** LogLogoutAsync: append one Logout record for `userId`; it is stored iff the user exists. */
    method LogLogout(userId: Guid, eventId: Guid, now: Instant) returns (r: Outcome<Fault>)
      requires Db().Valid() && FreshEventId(Db().State(), eventId)
      modifies Db()
      ensures Db().Valid()
      ensures r.Pass? <==> userId in old(Db().users)
      ensures r.Fail? ==> r.error == DbUpdate(ForeignKey("FK_SecurityEvents_Users_AuthorUserId"))
      ensures Db().State() == if r.Pass?
        then old(Db().State()).(securityEvents := old(Db().securityEvents) + [LogoutEvent(eventId, userId, now)])
        else old(Db().State())
    {
      var e := LogoutEvent(eventId, userId, now);
      FreshEventAcceptedIffUsersExist(Db().State(), e);
      var created := securityEventRepository.Create(e);
      r := if created.Success? then Pass else Fail(created.error);
    }

    /** LogRoleAssignedAsync: append one RoleAssigned record; it is stored iff both users exist. */
    method LogRoleAssigned(authorUserId: Guid, affectedUserId: Guid, fromRole: string, toRole: string, eventId: Guid, now: Instant)
      returns (r: Outcome<Fault>)
      requires Db().Valid() && FreshEventId(Db().State(), eventId)
      modifies Db()
      ensures Db().Valid()
      ensures r.Pass? <==> authorUserId in old(Db().users) && affectedUserId in old(Db().users)
      ensures r == Saved(InsertEventViolation(old(Db().State()), RoleAssignedEvent(eventId, authorUserId, affectedUserId, fromRole, toRole, now)))
      ensures Db().State() == if r.Pass?
        then old(Db().State()).(securityEvents := old(Db().securityEvents) + [RoleAssignedEvent(eventId, authorUserId, affectedUserId, fromRole, toRole, now)])
        else old(Db().State())
    {
      var e := RoleAssignedEvent(eventId, authorUserId, affectedUserId, fromRole, toRole, now);
      FreshEventAcceptedIffUsersExist(Db().State(), e);
      var created := securityEventRepository.Create(e);
      r := if created.Success? then Pass else Fail(created.error);
    }

    /** GetAuthEventsAsync: the repository's answer, unchanged. */
    method GetAuthEvents() returns (r: seq<SecurityEvent>)
      ensures IsQueryResult(Db().securityEvents, AuthEvents, r)
    {
      r := securityEventRepository.GetAuthEvents();
    }

    /** GetRoleChangeEventsAsync: the repository's answer, unchanged. */
    method GetRoleChangeEvents() returns (r: seq<SecurityEvent>)
      ensures IsQueryResult(Db().securityEvents, RoleChangeEvents, r)
    {
      r := securityEventRepository.GetRoleChangeEvents();
    }

    /** GetAuthenticationEventsAsync: one view per authentication event, in the query's order. */
    method GetAuthenticationEvents() returns (r: seq<AuthEventView>)
      ensures exists es :: IsQueryResult(Db().securityEvents, AuthEvents, es) && r == AuthEventViews(Db().users, es)
    {
      var es := securityEventRepository.GetAuthEvents();
      r := AuthEventViews(Db().users, es);
    }

    /** GetRoleChangeEventDtosAsync: one view per role-change event, in the query's order. */
    method GetRoleChangeEventDtos() returns (r: seq<RoleChangeEventView>)
      ensures exists es :: IsQueryResult(Db().securityEvents, RoleChangeEvents, es) && r == RoleChangeEventViews(Db().users, es)
    {
      var es := securityEventRepository.GetRoleChangeEvents();
      r := RoleChangeEventViews(Db().users, es);
    }
  }

  // ---------------------------------------------------------------------------
  // UserService
  // ---------------------------------------------------------------------------

  const BasicUserRoleMissingMessage := "BasicUser role not found in database"

  /** `t` with the role of `userId` set to `roleId` and the rest of the row kept. */
  ghost function WithRole(t: Tables, userId: Guid, roleId: Guid): Tables
    requires userId in t.users
  {
    t.(users := t.users[userId := t.users[userId].(roleId := roleId)])
  }

  ghost predicate KnownExternalId(t: Tables, externalId: string) {
    exists id :: id in t.users && t.users[id].externalId == externalId
  }

  ghost predicate HasBasicUserRole(t: Tables) {
    exists id :: id in t.roles && t.roles[id].name == BasicUserRoleName
  }

  ghost predicate EmailTaken(t: Tables, email: string) {
    exists id :: id in t.users && t.users[id].email == email
  }

  /** First login: `u` is the one user added, with the BasicUser role and both timestamps `now`. */
  ghost predicate ProvisionedNew(t: Tables, t': Tables, email: string, externalId: string, name: string, newId: Guid, now: Instant, u: User) {
    && u == User(newId, externalId, email, name, now, now, u.roleId)
    && u.roleId in t.roles && t.roles[u.roleId].name == BasicUserRoleName
    && t' == t.(users := t.users[newId := u])
  }

  /** Later login: `u` is a stored user with that external id, with only LastLoginAt moved to `now`. */
  ghost predicate Refreshed(t: Tables, t': Tables, externalId: string, now: Instant, u: User) {
    && u.id in t.users && t.users[u.id].externalId == externalId
    && u == t.users[u.id].(lastLoginAt := now)
    && t' == t.(users := t.users[u.id := u])
  }

  /**
   * Provisioning is idempotent on the update path: after a first login created
   * `u1`, the next login with the same external id finds that same user and only
   * moves its LastLoginAt; no second user appears.
   */
  lemma {:induction false} SecondLoginRefreshesFirst(
    t: Tables, t1: Tables, t2: Tables, email: string, externalId: string, name: string,
    newId: Guid, now: Instant, later: Instant, u1: User, u2: User)
    requires !KnownExternalId(t, externalId)
    requires ProvisionedNew(t, t1, email, externalId, name, newId, now, u1)
    requires Refreshed(t1, t2, externalId, later, u2)
    ensures u2 == u1.(lastLoginAt := later)
    ensures t2.users.Keys == t1.users.Keys
    ensures t2 == t1.(users := t1.users[newId := u1.(lastLoginAt := later)])
  {
  }

  class UserService {
    const userRepository: UserRepository
    const roleRepository: RoleRepository
    const securityEventService: SecurityEventService

    constructor (userRepository: UserRepository, roleRepository: RoleRepository, securityEventService: SecurityEventService)
      ensures this.userRepository == userRepository
      ensures this.roleRepository == roleRepository
      ensures this.securityEventService == securityEventService
    {
      this.userRepository := userRepository;
      this.roleRepository := roleRepository;
      this.securityEventService := securityEventService;
    }

    function Db(): AuditDbContext {
      userRepository.db
    }

    /** All collaborators work on one context. */
    predicate Wired() {
      roleRepository.db == Db() && securityEventService.Db() == Db()
    }

    /**
     * AssignRoleAsync: false, with nothing written, when the user or the role is
     * unknown (the user is looked up first). Otherwise the user's RoleId is saved,
     * then one RoleAssigned record (author, user, old role name, new role name) is
     * appended and the result is true. The two writes are separate: when the
     * record is refused (an unknown author) the role change stays and the call throws.
     */
    method AssignRole(userId: Guid, roleId: Guid, authorUserId: Guid, eventId: Guid, now: Instant) returns (r: Result<bool, Fault>)
      requires Wired() && Db().Valid() && FreshEventId(Db().State(), eventId)
      modifies Db()
      ensures Db().Valid()
      ensures r == Success(false) <==> userId !in old(Db().users) || roleId !in old(Db().roles)
      ensures r == Success(false) ==> Db().State() == old(Db().State())
      ensures r != Success(false) ==>
        var t := WithRole(old(Db().State()), userId, roleId);
        var e := RoleAssignedEvent(eventId, authorUserId, userId,
          old(Db().roles[Db().users[userId].roleId].name), old(Db().roles[roleId].name), now);
        && (r == Success(true) <==> authorUserId in old(Db().users))
        && (r.Failure? ==> r.error == DbUpdate(ForeignKey("FK_SecurityEvents_Users_AuthorUserId")))
        && Db().State() == if r == Success(true) then t.(securityEvents := t.securityEvents + [e]) else t
    {
      var user := userRepository.GetByIdWithRoleAndClaims(userId);
      if user.None? {
        return Success(false);
      }
      var u := user.value;
      var oldRoleName := Db().roles[u.roleId].name;
      var newRole := roleRepository.GetById(roleId);
      if newRole.None? {
        return Success(false);
      }
      var updated := u.(roleId := roleId);
      assert UpdateUserViolation(Db().State(), updated).None?;
      var saved := userRepository.Update(updated);
      var logged := securityEventService.LogRoleAssigned(authorUserId, userId, oldRoleName, newRole.value.name, eventId, now);
      r := if logged.Pass? then Success(true) else Failure(logged.error);
    }

    /** GetAllUsersAsync: one summary per stored user, naming the user's role or "Unknown". */
    method GetAllUsers() returns (r: seq<UserSummary>)
      requires Db().Valid()
      ensures exists us :: ListsEveryUser(Db().users, us) && r == UserSummaries(Db().roles, us)
    {
      var us := userRepository.GetAll();
      r := UserSummaries(Db().roles, us);
    }

    /**
     * CreateOrUpdateUserAsync: a known external id refreshes that user's
     * LastLoginAt; an unknown one creates a BasicUser user, which fails when no
     * BasicUser role exists or the email is taken. The result carries the user
     * and its role; no security event is written.
     */
    method CreateOrUpdateUser(email: string, externalId: string, name: string, provider: string, newId: Guid, now: Instant)
      returns (r: Result<(User, Option<Role>), Fault>)
      requires Wired() && Db().Valid() && newId !in Db().users
      modifies Db()
      ensures Db().Valid()
      ensures r.Success? ==> r.value.0.roleId in Db().roles && r.value.1 == Some(Db().roles[r.value.0.roleId])
      ensures Db().securityEvents == old(Db().securityEvents)
      ensures KnownExternalId(old(Db().State()), externalId) ==>
        r.Success? && Refreshed(old(Db().State()), Db().State(), externalId, now, r.value.0)
      ensures !KnownExternalId(old(Db().State()), externalId) && !HasBasicUserRole(old(Db().State())) ==>
        r == Failure(InvalidOperation(BasicUserRoleMissingMessage)) && Db().State() == old(Db().State())
      ensures (!KnownExternalId(old(Db().State()), externalId) && HasBasicUserRole(old(Db().State()))
               && EmailTaken(old(Db().State()), email)) ==>
        r == Failure(DbUpdate(UniqueIndex("IX_Users_Email"))) && Db().State() == old(Db().State())
      ensures (!KnownExternalId(old(Db().State()), externalId) && HasBasicUserRole(old(Db().State()))
               && !EmailTaken(old(Db().State()), email)) ==>
        r.Success? && ProvisionedNew(old(Db().State()), Db().State(), email, externalId, name, newId, now, r.value.0)
    {
      var found := userRepository.GetByExternalId(externalId);
      var u: User;
      if found.None? {
        var basicRole := roleRepository.GetByName(BasicUserRoleName);
        if basicRole.None? {
          return Failure(InvalidOperation(BasicUserRoleMissingMessage));
        }
        u := User(newId, externalId, email, name, now, now, basicRole.value.id);
        var created := userRepository.Create(u);
        if created.Failure? {
          return Failure(created.error);
        }
      } else {
        u := found.value.(lastLoginAt := now);
        assert UpdateUserViolation(Db().State(), u).None?;
        var saved := userRepository.Update(u);
      }
      var role := roleRepository.GetById(u.roleId);
      r := Success((u, role));
    }
  }
}
