/**
 * The older services (Services/SecurityEventService.cs and Services/UserService.cs):
 * event recording with pass-through getters, claim-driven login handling and a
 * role assignment that throws instead of returning false.
 *
 * The older event service is written against an event repository whose
 * implementation is not part of this model; it is given the event repository
 * of the newer data-access layer, which has the same operations.
 */
module LegacyServices {
  import opened Wrappers
  import opened Entities
  import opened AuditDb
  import opened Principals
  import opened EventQueries
  import opened EventRecords
  import opened Repositories
  import LegacyRepositories
  import opened Services

  class SecurityEventService {
    const securityEventRepository: SecurityEventRepository

    constructor (securityEventRepository: SecurityEventRepository)
      ensures this.securityEventRepository == securityEventRepository
    {
      this.securityEventRepository := securityEventRepository;
    }

    function Db(): AuditDbContext {
      securityEventRepository.db
    }

    /** LogLoginSuccessAsync: append one LoginSuccess record for `userId`; it is stored iff the user exists. */
    method LogLoginSuccess(userId: Guid, provider: string, eventId: Guid, now: Instant) returns (r: Outcome<Fault>)
      requires Db().Valid() && FreshEventId(Db().State(), eventId)
      modifies Db()
      ensures Db().Valid()
      ensures r.Pass? <==> userId in old(Db().users)
      ensures r.Fail? ==> r.error == DbUpdate(ForeignKey("FK_SecurityEvents_Users_AuthorUserId"))
      ensures Db().State() == if r.Pass?
        then old(Db().State()).(securityEvents := old(Db().securityEvents) + [LoginSuccessEvent(eventId, userId, provider, now)])
        else old(Db().State())
    {
      var e := LoginSuccessEvent(eventId, userId, provider, now);
      FreshEventAcceptedIffUsersExist(Db().State(), e);
      var created := securityEventRepository.Create(e);
      r := if created.Success? then Pass else Fail(created.error);
    }

    /** LogLogoutAsync: append one Logout record for `userId`; it is stored iff the user exists. */
    method LogLogout(userId: Guid, eventId: Guid, now: Instant) returns (r: Outcome<Fault>)
      requires Db().Valid() && FreshEventId(Db().State(), eventId)
      modifies Db()
      ensures Db().Valid()
      ensures r.Pass? <==> userId in old(Db().users)
      ensures r.Fail? ==> r.error == DbUpdate(ForeignKey("FK_SecurityEvents_Users_AuthorUserId"))
      ensures Db().State() == if r.Pass?
        then old(Db().State()).(securityEvents := old(Db().securityEvents) + [LogoutEvent(eventId, userId, now)])
        else old(Db().State())
    {
      var e := LogoutEvent(eventId, userId, now);
      FreshEventAcceptedIffUsersExist(Db().State(), e);
      var created := securityEventRepository.Create(e);
      r := if created.Success? then Pass else Fail(created.error);
    }

    /** LogRoleAssignedAsync: append one RoleAssigned record; it is stored iff both users exist. */
    method LogRoleAssigned(authorUserId: Guid, affectedUserId: Guid, fromRole: string, toRole: string, eventId: Guid, now: Instant)
      returns (r: Outcome<Fault>)
      requires Db().Valid() && FreshEventId(Db().State(), eventId)
      modifies Db()
      ensures Db().Valid()
      ensures r.Pass? <==> authorUserId in old(Db().users) && affectedUserId in old(Db().users)
      ensures r == Saved(InsertEventViolation(old(Db().State()), RoleAssignedEvent(eventId, authorUserId, affectedUserId, fromRole, toRole, now)))
      ensures Db().State() == if r.Pass?
        then old(Db().State()).(securityEvents := old(Db().securityEvents) + [RoleAssignedEvent(eventId, authorUserId, affectedUserId, fromRole, toRole, now)])
        else old(Db().State())
    {
      var e := RoleAssignedEvent(eventId, authorUserId, affectedUserId, fromRole, toRole, now);
      FreshEventAcceptedIffUsersExist(Db().State(), e);
      var created := securityEventRepository.Create(e);
      r := if created.Success? then Pass else Fail(created.error);
    }

    /** GetAuthEventsAsync: the repository's answer, unchanged. */
    method GetAuthEvents() returns (r: seq<SecurityEvent>)
      ensures IsQueryResult(Db().securityEvents, AuthEvents, r)
    {
      r := securityEventRepository.GetAuthEvents();
    }

    /** GetRoleChangeEventsAsync: the repository's answer, unchanged. */
    method GetRoleChangeEvents() returns (r: seq<SecurityEvent>)
      ensures IsQueryResult(Db().securityEvents, RoleChangeEvents, r)
    {
      r := securityEventRepository.GetRoleChangeEvents();
    }
  }

  /** The claim types tried for the email, and for the external id, in order. */
  const EmailClaimTypes: seq<string> := [EmailClaimType, "email"]
  const SubjectClaimTypes: seq<string> := [NameIdentifierClaimType, "sub"]

  const EmailClaimMissingMessage := "Email claim not found"
  const SubjectClaimMissingMessage := "Subject claim not found"
  const LegacyBasicUserRoleMissingMessage := "BasicUser role not found"
  const UserNotFoundMessage := "User not found"
  const RoleNotFoundMessage := "Role not found"

  /** The user a first login creates: email and external id from the claims, empty name, BasicUser role. */
  function FirstLoginUser(newId: Guid, now: Instant, email: string, externalId: string, roleId: Guid): User {
    NewUser(newId, now).(email := email, externalId := externalId, roleId := roleId)
  }

  /**
   * The outcome of a login with claims `email` and `externalId`: a known user is
   * left untouched, a first login creates a BasicUser user (failing when no
   * BasicUser role exists or the email is taken), and every successful login
   * appends exactly one LoginSuccess record for the user.
   */
  ghost predicate LoggedIn(t: Tables, t': Tables, email: string, externalId: string, provider: string,
                           newId: Guid, eventId: Guid, now: Instant, r: Outcome<Fault>) {
    if KnownExternalId(t, externalId) then
      && r == Pass
      && exists id :: id in t.users && t.users[id].externalId == externalId
           && t' == t.(securityEvents := t.securityEvents + [LoginSuccessEvent(eventId, id, provider, now)])
    else if !HasBasicUserRole(t) then
      r == Fail(InvalidOperation(LegacyBasicUserRoleMissingMessage)) && t' == t
    else if EmailTaken(t, email) then
      r == Fail(DbUpdate(UniqueIndex("IX_Users_Email"))) && t' == t
    else
      && r == Pass
      && exists rid :: rid in t.roles && t.roles[rid].name == BasicUserRoleName
           && t' == t.(users := t.users[newId := FirstLoginUser(newId, now, email, externalId, rid)],
                       securityEvents := t.securityEvents + [LoginSuccessEvent(eventId, newId, provider, now)])
  }

  class UserService {
    const userRepository: LegacyRepositories.UserRepository
    const roleRepository: LegacyRepositories.RoleRepository
    const securityEventService: SecurityEventService

    constructor (userRepository: LegacyRepositories.UserRepository, roleRepository: LegacyRepositories.RoleRepository,
                 securityEventService: SecurityEventService)
      ensures this.userRepository == userRepository
      ensures this.roleRepository == roleRepository
      ensures this.securityEventService == securityEventService
    {
      this.userRepository := userRepository;
      this.roleRepository := roleRepository;
      this.securityEventService := securityEventService;
    }

    function Db(): AuditDbContext {
      userRepository.db
    }

    /** All collaborators work on one context. */
    predicate Wired() {
      roleRepository.db == Db() && securityEventService.Db() == Db()
    }

    /**
     * HandleLoginAsync: read the email, then the external id, from the claims
     * (each throws when absent), then provision and record as `LoggedIn` says.
     */
    method HandleLogin(p: Principal, provider: string, newId: Guid, eventId: Guid, now: Instant) returns (r: Outcome<Fault>)
      requires Wired() && Db().Valid() && newId !in Db().users && FreshEventId(Db().State(), eventId)
      modifies Db()
      ensures Db().Valid()
      ensures FirstPresent(p, EmailClaimTypes).None? ==>
        r == Fail(InvalidOperation(EmailClaimMissingMessage)) && Db().State() == old(Db().State())
      ensures (FirstPresent(p, EmailClaimTypes).Some? && FirstPresent(p, SubjectClaimTypes).None?) ==>
        r == Fail(InvalidOperation(SubjectClaimMissingMessage)) && Db().State() == old(Db().State())
      ensures (FirstPresent(p, EmailClaimTypes).Some? && FirstPresent(p, SubjectClaimTypes).Some?) ==>
        LoggedIn(old(Db().State()), Db().State(), FirstPresent(p, EmailClaimTypes).value,
          FirstPresent(p, SubjectClaimTypes).value, provider, newId, eventId, now, r)
    {
      var email := FirstPresent(p, EmailClaimTypes);
      if email.None? {
        return Fail(InvalidOperation(EmailClaimMissingMessage));
      }
      var externalId := FirstPresent(p, SubjectClaimTypes);
      if externalId.None? {
        return Fail(InvalidOperation(SubjectClaimMissingMessage));
      }
      r := ProvisionAndRecord(email.value, externalId.value, provider, newId, eventId, now);
    }

    /** The part of HandleLoginAsync after the claims are read. */
    method ProvisionAndRecord(email: string, externalId: string, provider: string, newId: Guid, eventId: Guid, now: Instant)
      returns (r: Outcome<Fault>)
      requires Wired() && Db().Valid() && newId !in Db().users && FreshEventId(Db().State(), eventId)
      modifies Db()
      ensures Db().Valid()
      ensures LoggedIn(old(Db().State()), Db().State(), email, externalId, provider, newId, eventId, now, r)
    {
      var found := userRepository.GetByExternalId(externalId);
      var userId: Guid;
      if found.None? {
        var basicRole := roleRepository.GetByName(BasicUserRoleName);
        if basicRole.None? {
          return Fail(InvalidOperation(LegacyBasicUserRoleMissingMessage));
        }
        var created := userRepository.Create(FirstLoginUser(newId, now, email, externalId, basicRole.value.id));
        if created.Failure? {
          return Fail(created.error);
        }
        userId := created.value.id;
      } else {
        userId := found.value.id;
      }
      r := securityEventService.LogLoginSuccess(userId, provider, eventId, now);
    }

    /**
     * AssignRoleAsync: throw "User not found" or "Role not found" (the user is
     * looked up first) with nothing written. Otherwise save the new RoleId,
     * then append one RoleAssigned record; when that record is refused the role
     * change stays and the call throws.
     */
    method AssignRole(userId: Guid, roleId: Guid, authorUserId: Guid, eventId: Guid, now: Instant) returns (r: Outcome<Fault>)
      requires Wired() && Db().Valid() && FreshEventId(Db().State(), eventId)
      modifies Db()
      ensures Db().Valid()
      ensures userId !in old(Db().users) ==>
        r == Fail(InvalidOperation(UserNotFoundMessage)) && Db().State() == old(Db().State())
      ensures userId in old(Db().users) && roleId !in old(Db().roles) ==>
        r == Fail(InvalidOperation(RoleNotFoundMessage)) && Db().State() == old(Db().State())
      ensures userId in old(Db().users) && roleId in old(Db().roles) ==>
        var t := WithRole(old(Db().State()), userId, roleId);
        var e := RoleAssignedEvent(eventId, authorUserId, userId,
          old(Db().roles[Db().users[userId].roleId].name), old(Db().roles[roleId].name), now);
        && (r.Pass? <==> authorUserId in old(Db().users))
        && (r.Fail? ==> r.error == DbUpdate(ForeignKey("FK_SecurityEvents_Users_AuthorUserId")))
        && Db().State() == if r.Pass? then t.(securityEvents := t.securityEvents + [e]) else t
    {
      var user := userRepository.GetByIdWithRoleAndClaims(userId);
      if user.None? {
        return Fail(InvalidOperation(UserNotFoundMessage));
      }
      var u := user.value;
      var oldRoleName := Db().roles[u.roleId].name;
      var newRole := roleRepository.GetById(roleId);
      if newRole.None? {
        return Fail(InvalidOperation(RoleNotFoundMessage));
      }
      var updated := u.(roleId := roleId);
      assert UpdateUserViolation(Db().State(), updated).None?;
      var saved := userRepository.Update(updated);
      r := securityEventService.LogRoleAssigned(authorUserId, userId, oldRoleName, newRole.value.name, eventId, now);
    }
  }

  /**
   * Claim precedence of the login handler: ClaimTypes.Email wins over "email",
   * ClaimTypes.NameIdentifier over "sub", whenever the preferred claim is present.
   */
  lemma PreferredLoginClaimsWin(p: Principal)
    ensures FindFirst(p, EmailClaimType).Some? ==> FirstPresent(p, EmailClaimTypes) == FindFirst(p, EmailClaimType)
    ensures FindFirst(p, EmailClaimType).None? ==> FirstPresent(p, EmailClaimTypes) == FindFirst(p, "email")
    ensures FindFirst(p, NameIdentifierClaimType).Some? ==> FirstPresent(p, SubjectClaimTypes) == FindFirst(p, NameIdentifierClaimType)
    ensures FindFirst(p, NameIdentifierClaimType).None? ==> FirstPresent(p, SubjectClaimTypes) == FindFirst(p, "sub")
  {
    FirstOfTwoPresent(p, EmailClaimType, "email");
    FirstOfTwoPresent(p, NameIdentifierClaimType, "sub");
  }
}
