/**
 * The GraphQL layer: the two mutations (GraphQL/Mutations/Mutation.cs) and the
 * computed `roleChange` field of a security event (GraphQL/Types/SecurityEventType.cs).
 *
 * The mutation writes the event type `EventTypes.RoleAssigned`, a constant
 * whose definition is not part of this model; it is the parameter
 * `roleAssignedEventType`.
 */
module GraphQL {
  import opened Wrappers
  import opened Entities
  import opened AuditDb
  import opened EventQueries
  import opened EventRecords
  import opened Repositories
  import opened Services

  // ---------------------------------------------------------------------------
  // roleChange
  // ---------------------------------------------------------------------------

  /** The event type the resolver tests for. */
  const ResolverRoleAssignedType := "ROLE_ASSIGNED"

  /** The value of the `roleChange` field: both role ids and the roles they load. */
  datatype RoleChange = RoleChange(previousRoleId: Guid, newRoleId: Guid, previousRole: Option<Role>, newRole: Option<Role>)

  /** The navigation loaded through an optional role-id column. */
  function LoadedRole(roles: map<Guid, Role>, roleId: Guid): Option<Role> {
    if roleId in roles then Some(roles[roleId]) else None
  }

  /**
   * The `roleChange` resolver: a value exactly for a "ROLE_ASSIGNED" event that
   * carries both role ids, copying the ids and their roles; null otherwise.
   */
  function ResolveRoleChange(e: SecurityEvent, roles: map<Guid, Role>): (r: Option<RoleChange>)
    ensures r.Some? <==> e.eventType == ResolverRoleAssignedType && e.previousRoleId.Some? && e.newRoleId.Some?
    ensures r.Some? ==>
      && r.value.previousRoleId == e.previousRoleId.value && r.value.newRoleId == e.newRoleId.value
      && r.value.previousRole == LoadedRole(roles, e.previousRoleId.value)
      && r.value.newRole == LoadedRole(roles, e.newRoleId.value)
  {
    if e.eventType == ResolverRoleAssignedType && e.previousRoleId.Some? && e.newRoleId.Some? then
      Some(RoleChange(e.previousRoleId.value, e.newRoleId.value,
        LoadedRole(roles, e.previousRoleId.value), LoadedRole(roles, e.newRoleId.value)))
    else None
  }

  /**
   * As written, no event is both returned by the role-change query and given a
   * `roleChange` value: the query selects "RoleAssigned", the resolver
   * "ROLE_ASSIGNED". In particular every record of the role-assignment services
   * resolves to null.
   */
  lemma RoleChangeQueryAndResolverDisagree(e: SecurityEvent, roles: map<Guid, Role>)
    ensures InCategory(RoleChangeEvents, e) ==> ResolveRoleChange(e, roles).None?
    ensures forall id, author, affected, from, to, now ::
      ResolveRoleChange(RoleAssignedEvent(id, author, affected, from, to, now), roles).None?
  {
  }

  /** The resolver with the test the role-change query uses. */
  function ResolveRoleChangeCorrected(e: SecurityEvent, roles: map<Guid, Role>): (r: Option<RoleChange>)
    ensures r.Some? <==> e.eventType == RoleAssignedType && e.previousRoleId.Some? && e.newRoleId.Some?
    ensures r.Some? ==>
      && r.value.previousRoleId == e.previousRoleId.value && r.value.newRoleId == e.newRoleId.value
      && r.value.previousRole == LoadedRole(roles, e.previousRoleId.value)
      && r.value.newRole == LoadedRole(roles, e.newRoleId.value)
  {
    if e.eventType == RoleAssignedType && e.previousRoleId.Some? && e.newRoleId.Some? then
      Some(RoleChange(e.previousRoleId.value, e.newRoleId.value,
        LoadedRole(roles, e.previousRoleId.value), LoadedRole(roles, e.newRoleId.value)))
    else None
  }

  // ---------------------------------------------------------------------------
  // assignUserRole
  // ---------------------------------------------------------------------------

  datatype AssignUserRoleInput = AssignUserRoleInput(userId: Guid, roleId: Guid)

  datatype RoleDto = RoleDto(id: Guid, name: string, description: Option<string>)
  datatype UserDto = UserDto(id: Guid, email: string, name: string, roleId: Guid, role: RoleDto)
  datatype SecurityEventDto = SecurityEventDto(
    id: Guid, eventType: string, occurredUtc: Instant, details: string,
    userEmail: string, actorEmail: string, targetEmail: string)

  datatype AssignUserRoleResult = AssignUserRoleResult(
    success: bool, message: string, user: Option<UserDto>, securityEvent: Option<SecurityEventDto>)

  datatype LogoutResult = LogoutResult(success: bool, message: string)

  const UserNotFoundResultMessage := "User not found"
  const RoleNotFoundResultMessage := "Role not found"
  const RoleAssignedResultMessage := "Role assigned successfully"
  const AssignRoleErrorPrefix := "Error assigning role: "
  const LogoutLoggedMessage := "Logout event logged successfully"
  const LogoutErrorPrefix := "Error logging logout: "

  const RoleChangedDetailsPrefix := "User role changed to "

  /**
   * The record the mutation writes: the target user is both author and affected
   * user, and the record carries the previous and the new role id.
   */
  function RoleChangeRecord(id: Guid, u: User, eventType: string, role: Role, previousRoleId: Guid, now: Instant): (r: SecurityEvent)
    ensures r.id == id && r.occurredUtc == now && r.eventType == eventType
    ensures r.authorUserId == u.id && r.affectedUserId == u.id
    ensures r.previousRoleId == Some(previousRoleId) && r.newRoleId == Some(role.id)
    ensures r.details == Some(RoleChangedDetailsPrefix + role.name)
    ensures InCategory(RoleChangeEvents, r) <==> eventType == RoleAssignedType
    ensures EventWithinLimits(r) <==> |eventType| <= MaxEventTypeLength && |RoleChangedDetailsPrefix| + |role.name| <= MaxDetailsLength
  {
    NewSecurityEvent(id, now).(
      eventType := eventType, authorUserId := u.id, affectedUserId := u.id,
      details := Some(RoleChangedDetailsPrefix + role.name),
      previousRoleId := Some(previousRoleId), newRoleId := Some(role.id))
  }

  /** The success result: the updated user with its new role, and the record written. */
  function AssignedResult(u: User, role: Role, e: SecurityEvent): (r: AssignUserRoleResult)
    ensures r.success && r.message == RoleAssignedResultMessage
    ensures r.user.Some? && r.user.value.id == u.id && r.user.value.roleId == u.roleId
    ensures r.user.value.role == RoleDto(role.id, role.name, role.description)
    ensures r.securityEvent.Some? && r.securityEvent.value.id == e.id && r.securityEvent.value.eventType == e.eventType
    ensures r.securityEvent.value.details == (if e.details.Some? then e.details.value else "")
    ensures r.securityEvent.value.actorEmail == u.email && r.securityEvent.value.targetEmail == u.email
  {
    AssignUserRoleResult(true, RoleAssignedResultMessage,
      Some(UserDto(u.id, u.email, u.name, u.roleId, RoleDto(role.id, role.name, role.description))),
      Some(SecurityEventDto(e.id, e.eventType, e.occurredUtc, e.details.GetOr(""), u.email, u.email, u.email)))
  }

  /** A failure result carrying only a message. */
  function Refused(message: string): AssignUserRoleResult {
    AssignUserRoleResult(false, message, None, None)
  }

  /**
   * Whatever event type the mutation is given, its record is visible to the
   * role-change query exactly when the type is "RoleAssigned", and has a
   * `roleChange` value exactly when the type is "ROLE_ASSIGNED": never both.
   */
  lemma MutationRecordVisibility(id: Guid, u: User, eventType: string, role: Role, previousRoleId: Guid, now: Instant, roles: map<Guid, Role>)
    ensures InCategory(RoleChangeEvents, RoleChangeRecord(id, u, eventType, role, previousRoleId, now)) <==> eventType == RoleAssignedType
    ensures ResolveRoleChange(RoleChangeRecord(id, u, eventType, role, previousRoleId, now), roles).Some? <==> eventType == ResolverRoleAssignedType
    ensures ResolveRoleChangeCorrected(RoleChangeRecord(id, u, eventType, role, previousRoleId, now), roles).Some? <==> eventType == RoleAssignedType
  {
  }

  /**
   * With the resolver corrected, a record the mutation writes with type
   * "RoleAssigned" is both listed by the role-change query and resolved to the
   * role change it made.
   */
  lemma CorrectedResolverSeesMutationRecords(id: Guid, u: User, role: Role, previousRoleId: Guid, now: Instant, roles: map<Guid, Role>)
    ensures InCategory(RoleChangeEvents, RoleChangeRecord(id, u, RoleAssignedType, role, previousRoleId, now))
    ensures ResolveRoleChangeCorrected(RoleChangeRecord(id, u, RoleAssignedType, role, previousRoleId, now), roles)
      == Some(RoleChange(previousRoleId, role.id, LoadedRole(roles, previousRoleId), LoadedRole(roles, role.id)))
  {
  }

  class Mutation {
    const userRepository: UserRepository
    const roleRepository: RoleRepository
    const securityEventRepository: SecurityEventRepository
    const securityEventService: SecurityEventService

    constructor (userRepository: UserRepository, roleRepository: RoleRepository,
                 securityEventRepository: SecurityEventRepository, securityEventService: SecurityEventService)
      ensures this.userRepository == userRepository
      ensures this.roleRepository == roleRepository
      ensures this.securityEventRepository == securityEventRepository
      ensures this.securityEventService == securityEventService
    {
      this.userRepository := userRepository;
      this.roleRepository := roleRepository;
      this.securityEventRepository := securityEventRepository;
      this.securityEventService := securityEventService;
    }

    function Db(): AuditDbContext {
      userRepository.db
    }

    /** All collaborators work on one context. */
    predicate Wired() {
      && roleRepository.db == Db()
      && securityEventRepository.db == Db()
      && securityEventService.Db() == Db()
    }

    /**
     * assignUserRole: "User not found" or "Role not found" with nothing written;
     * otherwise the new RoleId is saved, then the record is appended. When the
     * record is refused (its id already taken) the exception becomes an error
     * result, and the saved role change is not rolled back.
     */
    method AssignUserRole(input: AssignUserRoleInput, roleAssignedEventType: string, eventId: Guid, now: Instant)
      returns (r: AssignUserRoleResult)
      requires Wired() && Db().Valid()
      modifies Db()
      ensures Db().Valid()
      ensures input.userId !in old(Db().users) ==>
        r == Refused(UserNotFoundResultMessage) && Db().State() == old(Db().State())
      ensures input.userId in old(Db().users) && input.roleId !in old(Db().roles) ==>
        r == Refused(RoleNotFoundResultMessage) && Db().State() == old(Db().State())
      ensures input.userId in old(Db().users) && input.roleId in old(Db().roles) ==>
        var t := WithRole(old(Db().State()), input.userId, input.roleId);
        var u := t.users[input.userId];
        var e := RoleChangeRecord(eventId, u, roleAssignedEventType, old(Db().roles[input.roleId]),
          old(Db().users[input.userId].roleId), now);
        if FreshEventId(old(Db().State()), eventId)
        then r == AssignedResult(u, old(Db().roles[input.roleId]), e) && Db().State() == t.(securityEvents := t.securityEvents + [e])
        else r == Refused(AssignRoleErrorPrefix + SaveChangesFailedMessage) && Db().State() == t
    {
      var user := userRepository.GetById(input.userId);
      if user.None? {
        return Refused(UserNotFoundResultMessage);
      }
      var role := roleRepository.GetById(input.roleId);
      if role.None? {
        return Refused(RoleNotFoundResultMessage);
      }
      ghost var t0 := Db().State();
      var previousRoleId := user.value.roleId;
      var u := user.value.(roleId := input.roleId);
      assert UpdateUserViolation(t0, u).None?;
      var saved := userRepository.Update(u);
      ghost var t1 := Db().State();
      assert t1 == WithRole(t0, input.userId, input.roleId);
      var e := RoleChangeRecord(eventId, u, roleAssignedEventType, role.value, previousRoleId, now);
      assert e.authorUserId in t1.users && e.affectedUserId in t1.users;
      assert InsertEventViolation(t1, e).None? <==> FreshEventId(t0, eventId);
      var created := securityEventRepository.Create(e);
      if created.Failure? {
        return Refused(AssignRoleErrorPrefix + created.error.Message());
      }
      r := AssignedResult(u, role.value, e);
    }

    /** logLogout: success exactly when the Logout record is stored, that is when the user exists. */
    method LogLogout(userId: Guid, eventId: Guid, now: Instant) returns (r: LogoutResult)
      requires Wired() && Db().Valid() && FreshEventId(Db().State(), eventId)
      modifies Db()
      ensures Db().Valid()
      ensures r.success <==> userId in old(Db().users)
      ensures r == if r.success then LogoutResult(true, LogoutLoggedMessage) else LogoutResult(false, LogoutErrorPrefix + SaveChangesFailedMessage)
      ensures Db().State() == if r.success
        then old(Db().State()).(securityEvents := old(Db().securityEvents) + [LogoutEvent(eventId, userId, now)])
        else old(Db().State())
    {
      var logged := securityEventService.LogLogout(userId, eventId, now);
      if logged.Fail? {
        return LogoutResult(false, LogoutErrorPrefix + logged.error.Message());
      }
      r := LogoutResult(true, LogoutLoggedMessage);
    }
  }
}
