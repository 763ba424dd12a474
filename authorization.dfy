/**
 * The database-backed permission check (Authorization/PermissionAuthorizationHandler.cs)
 * and the two policies registered for it (Program.cs).
 *
 * The handler reports through the authorization context: it calls Fail, calls
 * Succeed, or calls neither. The model returns that report as a `Decision`;
 * access is granted only on `Succeeded`.
 */
module Authorization {
  import opened Wrappers
  import opened Entities
  import opened AuditDb
  import opened Principals
  import opened Repositories

  /** The claim types tried for the subject's external id, in order of precedence. */
  const ExternalIdClaimTypes: seq<string> := ["uid", "sub", "oid", ObjectIdentifierClaimType, NameIdentifierClaimType]

  /** The policy names and the permission each one requires. */
  const CanViewAuthEventsPolicy := "CanViewAuthEvents"
  const CanViewRoleChangesPolicy := "CanViewRoleChanges"
  const Policies: map<string, string> :=
    map[CanViewAuthEventsPolicy := ViewAuthEventsPermission, CanViewRoleChangesPolicy := RoleChangesPermission]

  /** What the handler reports: Succeed, Fail, or nothing at all (which denies). */
  datatype Decision = Undecided | Succeeded | Failed

  /** The external id: the value of the first of the claim types the principal carries. */
  function ResolveExternalId(p: Principal): Option<string> {
    FirstPresent(p, ExternalIdClaimTypes)
  }

  /** The decision for a user found by external id: Fail when its role is missing, else whether the role grants. */
  function DecisionFor(t: Tables, u: User, permission: string): (d: Decision)
    ensures d == Failed <==> u.roleId !in t.roles
    ensures d == Succeeded <==> u.roleId in t.roles && RoleGrants(t, u.roleId, permission)
  {
    if u.roleId !in t.roles then Failed
    else if RoleGrants(t, u.roleId, permission) then Succeeded
    else Undecided
  }

  /**
   * The decisions the handler may report for `p` and `permission` over the store
   * `t`. External ids are not unique, so when several users share one, the
   * decision for any of them is admissible.
   */
  ghost predicate IsDecision(t: Tables, p: Principal, permission: string, d: Decision) {
    match ResolveExternalId(p)
    case None => d == Failed
    case Some(x) =>
      if x == "" then d == Failed
      else if forall id :: id in t.users ==> t.users[id].externalId != x then d == Failed
      else exists id :: id in t.users && t.users[id].externalId == x && d == DecisionFor(t, t.users[id], permission)
  }

  class PermissionAuthorizationHandler {
    const userRepository: UserRepository

    constructor (userRepository: UserRepository)
      ensures this.userRepository == userRepository
    {
      this.userRepository := userRepository;
    }

    /**
     * HandleRequirementAsync: resolve the external id, look the user up, and
     * succeed exactly when a claim of the user's role is the required permission.
     */
    method HandleRequirement(p: Principal, permission: string) returns (d: Decision)
      requires userRepository.db.Valid()
      ensures IsDecision(userRepository.db.State(), p, permission, d)
    {
      var externalId := ResolveExternalId(p);
      if externalId.None? || externalId.value == "" {
        return Failed;
      }
      var user := userRepository.GetByExternalId(externalId.value);
      if user.None? {
        return Failed;
      }
      d := DecisionFor(userRepository.db.State(), user.value, permission);
    }
  }

  /** Only absent claims fall through: the first claim type present decides the external id. */
  lemma ExternalIdPrecedence(p: Principal, k: nat)
    requires IsFirstPresent(p, ExternalIdClaimTypes, k)
    ensures ResolveExternalId(p) == FindFirst(p, ExternalIdClaimTypes[k])
  {
    FirstPresentPicksEarliest(p, ExternalIdClaimTypes, k);
  }

  /**
   * A present but empty claim of higher precedence fails the check, whatever the
   * lower-precedence claims and the store hold.
   */
  lemma EmptyPreferredClaimFails(t: Tables, p: Principal, permission: string, k: nat, d: Decision)
    requires IsFirstPresent(p, ExternalIdClaimTypes, k) && FindFirst(p, ExternalIdClaimTypes[k]) == Some("")
    requires IsDecision(t, p, permission, d)
    ensures d == Failed
  {
    ExternalIdPrecedence(p, k);
  }

  /**
   * Default deny: access is granted only to a principal whose external id names
   * a stored user whose existing role holds the permission claim.
   */
  lemma GrantNeedsPermissionClaim(t: Tables, p: Principal, permission: string, d: Decision)
    requires IsDecision(t, p, permission, d) && d == Succeeded
    ensures ResolveExternalId(p).Some? && ResolveExternalId(p).value != ""
    ensures exists id :: (id in t.users && t.users[id].externalId == ResolveExternalId(p).value
                          && t.users[id].roleId in t.roles && RoleGrants(t, t.users[id].roleId, permission))
  {
  }

  /** When every user carrying the external id has the same role, the decision is determined. */
  lemma DecisionIsDetermined(t: Tables, p: Principal, permission: string, roleId: Guid, d1: Decision, d2: Decision)
    requires ResolveExternalId(p).Some?
    requires forall id :: id in t.users && t.users[id].externalId == ResolveExternalId(p).value ==> t.users[id].roleId == roleId
    requires IsDecision(t, p, permission, d1) && IsDecision(t, p, permission, d2)
    ensures d1 == d2
  {
  }

  /**
   * With the seeded roles and claims, the two policies decide as follows: a
   * BasicUser is never granted, an AuthObserver is granted only CanViewAuthEvents,
   * and a SecurityAuditor is granted both.
   */
  lemma {:induction false} SeedPolicyDecisions(t: Tables, p: Principal, policy: string, roleId: Guid, d: Decision)
    requires t.roles == SeedRoles && t.claims == SeedClaims && t.roleClaims == SeedRoleClaims
    requires policy in Policies
    requires ResolveExternalId(p).Some? && ResolveExternalId(p).value != ""
    requires exists id :: id in t.users && t.users[id].externalId == ResolveExternalId(p).value
    requires forall id :: id in t.users && t.users[id].externalId == ResolveExternalId(p).value ==> t.users[id].roleId == roleId
    requires IsDecision(t, p, Policies[policy], d)
    ensures roleId == BasicUserRoleId ==> d == Undecided
    ensures roleId == AuthObserverRoleId ==> (d == Succeeded <==> policy == CanViewAuthEventsPolicy)
    ensures roleId == SecurityAuditorRoleId ==> d == Succeeded
  {
    SeedGrants(Policies[policy]);
    assert forall r :: RoleGrants(t, r, Policies[policy]) == RoleGrants(SeedTables, r, Policies[policy]);
  }
}
