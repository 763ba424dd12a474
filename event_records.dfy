/**
 * The audit records written by the two security-event services
 * (Services/Implementations/SecurityEventService.cs and Services/SecurityEventService.cs):
 * a new event with its type, author, affected user, details and time set.
 */
module EventRecords {
  import opened Wrappers
  import opened Entities
  import opened AuditDb
  import opened EventQueries

  const ProviderPrefix := "provider="
  const LocalSignOutDetails := "local sign-out"

  /** A successful login of `userId` through `provider`, recorded by the user themself. */
  function LoginSuccessEvent(id: Guid, userId: Guid, provider: string, now: Instant): (r: SecurityEvent)
    ensures r.id == id && r.occurredUtc == now && r.authorUserId == userId && r.affectedUserId == userId
    ensures InCategory(AuthEvents, r) && !InCategory(RoleChangeEvents, r)
    ensures r.details.Some? && ProviderOf(r.details.value) == Some(provider)
    ensures r.previousRoleId.None? && r.newRoleId.None?
    ensures EventWithinLimits(r) <==> |ProviderPrefix| + |provider| <= MaxDetailsLength
  {
    var d := ProviderPrefix + provider;
    assert d[..|ProviderPrefix|] == ProviderPrefix;
    assert d[|ProviderPrefix|..] == provider;
    NewSecurityEvent(id, now).(
      eventType := LoginSuccessType, authorUserId := userId, affectedUserId := userId,
      details := Some(ProviderPrefix + provider))
  }

  /** A local sign-out of `userId`, recorded by the user themself. */
  function LogoutEvent(id: Guid, userId: Guid, now: Instant): (r: SecurityEvent)
    ensures r.id == id && r.occurredUtc == now && r.authorUserId == userId && r.affectedUserId == userId
    ensures InCategory(AuthEvents, r) && !InCategory(RoleChangeEvents, r)
    ensures r.details == Some(LocalSignOutDetails)
    ensures r.previousRoleId.None? && r.newRoleId.None?
    ensures EventWithinLimits(r)
  {
    NewSecurityEvent(id, now).(
      eventType := LogoutType, authorUserId := userId, affectedUserId := userId,
      details := Some(LocalSignOutDetails))
  }

  /** `Details` of a role assignment: "from=<old role> to=<new role>". */
  function RoleAssignedDetails(fromRole: string, toRole: string): (r: string)
    ensures |r| == |fromRole| + |toRole| + 9
  {
    "from=" + fromRole + " to=" + toRole
  }

  /** A role assignment by `authorUserId` to `affectedUserId`; the role-id columns stay empty. */
  function RoleAssignedEvent(id: Guid, authorUserId: Guid, affectedUserId: Guid, fromRole: string, toRole: string, now: Instant): (r: SecurityEvent)
    ensures r.id == id && r.occurredUtc == now && r.authorUserId == authorUserId && r.affectedUserId == affectedUserId
    ensures InCategory(RoleChangeEvents, r) && !InCategory(AuthEvents, r)
    ensures r.details == Some(RoleAssignedDetails(fromRole, toRole))
    ensures r.previousRoleId.None? && r.newRoleId.None?
    ensures EventWithinLimits(r) <==> |fromRole| + |toRole| + 9 <= MaxDetailsLength
  {
    NewSecurityEvent(id, now).(
      eventType := RoleAssignedType, authorUserId := authorUserId, affectedUserId := affectedUserId,
      details := Some(RoleAssignedDetails(fromRole, toRole)))
  }

  /** Reads the provider back out of a login record's details. */
  function ProviderOf(details: string): (r: Option<string>)
    ensures r.Some? ==> details == ProviderPrefix + r.value
  {
    if |details| >= |ProviderPrefix| && details[..|ProviderPrefix|] == ProviderPrefix
    then Some(details[|ProviderPrefix|..])
    else None
  }

  /** A login record names its provider: the details read back to exactly the provider logged. */
  lemma {:induction false} LoginDetailsRoundTrip(id: Guid, userId: Guid, provider: string, now: Instant)
    ensures LoginSuccessEvent(id, userId, provider, now).details.Some?
    ensures ProviderOf(LoginSuccessEvent(id, userId, provider, now).details.value) == Some(provider)
  {
    var d := ProviderPrefix + provider;
    assert d[..|ProviderPrefix|] == ProviderPrefix;
    assert d[|ProviderPrefix|..] == provider;
  }

  /**
   * Each record lands in the category queries meant for it: logins and logouts
   * in the authentication query, role assignments in the role-change query,
   * and never the other way round.
   */
  lemma RecordsFallInTheirCategories(id: Guid, userId: Guid, author: Guid, provider: string, fromRole: string, toRole: string, now: Instant)
    ensures InCategory(AuthEvents, LoginSuccessEvent(id, userId, provider, now))
    ensures !InCategory(RoleChangeEvents, LoginSuccessEvent(id, userId, provider, now))
    ensures InCategory(AuthEvents, LogoutEvent(id, userId, now))
    ensures !InCategory(RoleChangeEvents, LogoutEvent(id, userId, now))
    ensures InCategory(RoleChangeEvents, RoleAssignedEvent(id, author, userId, fromRole, toRole, now))
    ensures !InCategory(AuthEvents, RoleAssignedEvent(id, author, userId, fromRole, toRole, now))
  {
  }

  /** `id` is not the key of any stored event. */
  ghost predicate FreshEventId(t: Tables, id: Guid) {
    forall i :: 0 <= i < |t.securityEvents| ==> t.securityEvents[i].id != id
  }

  /** An event with a fresh id is stored exactly when both the users it references exist. */
  lemma FreshEventAcceptedIffUsersExist(t: Tables, e: SecurityEvent)
    requires FreshEventId(t, e.id)
    ensures InsertEventViolation(t, e).None? <==> e.authorUserId in t.users && e.affectedUserId in t.users
  {
  }
}
