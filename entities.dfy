/**
 * The persisted entities of the identity store (Data/Entities).
 *
 * Navigation properties (User.Role, Role.Users, Role.RoleClaims, Claim.RoleClaims,
 * SecurityEvent.AuthorUser, ...) are not stored: they are derived from the key
 * columns and the tables of `AuditDb.Tables`.
 */
module Entities {
  import opened Wrappers

  /** A Guid. `EmptyGuid` is Guid.Empty, the default value of a Guid property. */
  type Guid = nat
  const EmptyGuid: Guid := 0

  /** A UTC DateTime, as a tick count. */
  type Instant = nat

  // Column widths from the [MaxLength] annotations.
  const MaxExternalIdLength := 200
  const MaxEmailLength := 320
  const MaxUserNameLength := 200
  const MaxRoleNameLength := 100
  const MaxRoleDescriptionLength := 200
  const MaxClaimTypeLength := 100
  const MaxClaimValueLength := 200
  const MaxEventTypeLength := 50
  const MaxDetailsLength := 400

  /** Event type names written by the recorders and read by the category queries. */
  const LoginSuccessType := "LoginSuccess"
  const LogoutType := "Logout"
  const RoleAssignedType := "RoleAssigned"

  /** A user. `roleId` is a non-nullable Guid: every user carries a role id. */
  datatype User = User(
    id: Guid,
    externalId: string,
    email: string,
    name: string,
    createdAt: Instant,
    lastLoginAt: Instant,
    roleId: Guid)

  /** `new User()`: a fresh id, empty strings, both timestamps at the current time, Guid.Empty role. */
  function NewUser(id: Guid, now: Instant): (r: User)
    ensures r.id == id && r.createdAt == now && r.lastLoginAt == now && r.roleId == EmptyGuid
    ensures r.externalId == "" && r.email == "" && r.name == ""
    ensures UserWithinLimits(r)
  {
    User(id, "", "", "", now, now, EmptyGuid)
  }

  predicate UserWithinLimits(u: User) {
    && |u.externalId| <= MaxExternalIdLength
    && |u.email| <= MaxEmailLength
    && |u.name| <= MaxUserNameLength
  }

  /** A role; its users and its claim links are derived from the other tables. */
  datatype Role = Role(id: Guid, name: string, description: Option<string>)

  predicate RoleWithinLimits(r: Role) {
    && |r.name| <= MaxRoleNameLength
    && (r.description.Some? ==> |r.description.value| <= MaxRoleDescriptionLength)
  }

  /** A permission atom: a (type, value) pair such as ("permissions", "Audit.ViewAuthEvents"). */
  datatype Claim = Claim(id: Guid, claimType: string, value: string)

  predicate ClaimWithinLimits(c: Claim) {
    |c.claimType| <= MaxClaimTypeLength && |c.value| <= MaxClaimValueLength
  }

  /** The role-to-claim link: exactly a (RoleId, ClaimId) pair. */
  datatype RoleClaim = RoleClaim(roleId: Guid, claimId: Guid)

  /**
   * An audit record. `previousRoleId` and `newRoleId` are the optional role-id
   * columns that the GraphQL layer writes and reads.
   */
  datatype SecurityEvent = SecurityEvent(
    id: Guid,
    eventType: string,
    authorUserId: Guid,
    affectedUserId: Guid,
    occurredUtc: Instant,
    details: Option<string>,
    previousRoleId: Option<Guid>,
    newRoleId: Option<Guid>)

  /** `new SecurityEvent()`: a fresh id, empty type, Guid.Empty users, creation time, no details. */
  function NewSecurityEvent(id: Guid, now: Instant): (r: SecurityEvent)
    ensures r.id == id && r.occurredUtc == now && r.eventType == ""
    ensures r.authorUserId == EmptyGuid && r.affectedUserId == EmptyGuid
    ensures r.details.None? && r.previousRoleId.None? && r.newRoleId.None?
    ensures EventWithinLimits(r)
  {
    SecurityEvent(id, "", EmptyGuid, EmptyGuid, now, None, None, None)
  }

  predicate EventWithinLimits(e: SecurityEvent) {
    |e.eventType| <= MaxEventTypeLength && (e.details.Some? ==> |e.details.value| <= MaxDetailsLength)
  }
}
