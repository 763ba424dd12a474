/**
 * The users endpoint (Controllers/UsersController.cs): list users, log in (validate,
 * provision, record the login) and log out (validate, record the logout).
 *
 * An action's result is `Ok(body)` or `BadRequest(message)`; an exception that
 * escapes the action is a `Failure` carrying the `Fault`.
 */
module Controllers {
  import opened Wrappers
  import opened Entities
  import opened AuditDb
  import opened EventRecords
  import opened Services

  datatype ActionResult<+T> = Ok(body: T) | BadRequest(message: string)

  /** The login body. `name` may be null; email and external id are checked for emptiness. */
  datatype LoginRequest = LoginRequest(email: string, externalId: string, name: Option<string>, provider: string)
  datatype LogoutRequest = LogoutRequest(userId: Guid)

  /** The login answer: the user's id, email and role name. */
  datatype LoginResponse = LoginResponse(id: Guid, email: string, role: string)

  const InvalidLoginMessage := "Invalid login request"
  const InvalidLogoutMessage := "Invalid logout request"

  /** The request the controller accepts: non-null, with a non-empty email and external id. */
  predicate ValidLoginRequest(request: Option<LoginRequest>) {
    request.Some? && request.value.email != "" && request.value.externalId != ""
  }

  /** `request.Name ?? request.Email`: only a null name falls back to the email; an empty name is kept. */
  function DisplayName(request: LoginRequest): (r: string)
    ensures request.name.Some? ==> r == request.name.value
    ensures request.name.None? ==> r == request.email
  {
    request.name.GetOr(request.email)
  }

  /** The store with the user row `u` written. */
  ghost function WithUser(t: Tables, u: User): Tables {
    t.(users := t.users[u.id := u])
  }

  /**
   * An accepted login: `u` is the provisioned user (refreshed or created), one
   * LoginSuccess record for it is appended, and the answer shows its role name.
   */
  ghost predicate LoginRecorded(t: Tables, t': Tables, u: User, provider: string, eventId: Guid, now: Instant,
                                r: Result<ActionResult<LoginResponse>, Fault>) {
    && u.roleId in t.roles
    && t' == WithUser(t, u).(securityEvents := t.securityEvents + [LoginSuccessEvent(eventId, u.id, provider, now)])
    && r == Success(Ok(LoginResponse(u.id, u.email, t.roles[u.roleId].name)))
  }

  class UsersController {
    const userService: UserService
    const securityEventService: SecurityEventService

    constructor (userService: UserService, securityEventService: SecurityEventService)
      ensures this.userService == userService
      ensures this.securityEventService == securityEventService
    {
      this.userService := userService;
      this.securityEventService := securityEventService;
    }

    function Db(): AuditDbContext {
      userService.Db()
    }

    /** Both services work on one context. */
    predicate Wired() {
      userService.Wired() && securityEventService.Db() == Db()
    }

    /** GET: the user listing, one summary per stored user. */
    method GetUsers() returns (r: ActionResult<seq<UserSummary>>)
      requires Db().Valid()
      ensures r.Ok? && exists us :: ListsEveryUser(Db().users, us) && r.body == UserSummaries(Db().roles, us)
    {
      var users := userService.GetAllUsers();
      r := Ok(users);
    }

    /**
     * POST login: reject an invalid request with nothing written; otherwise
     * create or refresh the user, then record one LoginSuccess for it and answer
     * with its role name ("BasicUser" when the role cannot be loaded).
     */
    method Login(request: Option<LoginRequest>, newId: Guid, eventId: Guid, now: Instant)
      returns (r: Result<ActionResult<LoginResponse>, Fault>)
      requires Wired() && Db().Valid() && newId !in Db().users && FreshEventId(Db().State(), eventId)
      modifies Db()
      ensures Db().Valid()
      ensures !ValidLoginRequest(request) ==> r == Success(BadRequest(InvalidLoginMessage)) && Db().State() == old(Db().State())
      ensures ValidLoginRequest(request) ==>
        var req, t := request.value, old(Db().State());
        && (KnownExternalId(t, req.externalId) ==>
              exists u :: Refreshed(t, WithUser(t, u), req.externalId, now, u)
                && LoginRecorded(t, Db().State(), u, req.provider, eventId, now, r))
        && (!KnownExternalId(t, req.externalId) && !HasBasicUserRole(t) ==>
              r == Failure(InvalidOperation(BasicUserRoleMissingMessage)) && Db().State() == t)
        && (!KnownExternalId(t, req.externalId) && HasBasicUserRole(t) && EmailTaken(t, req.email) ==>
              r == Failure(DbUpdate(UniqueIndex("IX_Users_Email"))) && Db().State() == t)
        && (!KnownExternalId(t, req.externalId) && HasBasicUserRole(t) && !EmailTaken(t, req.email) ==>
              exists u :: ProvisionedNew(t, WithUser(t, u), req.email, req.externalId, DisplayName(req), newId, now, u)
                && LoginRecorded(t, Db().State(), u, req.provider, eventId, now, r))
    {
      if !ValidLoginRequest(request) {
        return Success(BadRequest(InvalidLoginMessage));
      }
      var req := request.value;
      ghost var t := Db().State();
      var provisioned := userService.CreateOrUpdateUser(req.email, req.externalId, DisplayName(req), req.provider, newId, now);
      if provisioned.Failure? {
        return Failure(provisioned.error);
      }
      var (u, role) := provisioned.value;
      assert Db().State() == WithUser(t, u);
      var logged := securityEventService.LogLoginSuccess(u.id, req.provider, eventId, now);
      assert logged.Pass?;
      var roleName := match role case Some(x) => x.name case None => BasicUserRoleName;
      r := Success(Ok(LoginResponse(u.id, u.email, roleName)));
    }

    /**
     * POST logout: reject a null request or Guid.Empty with nothing written;
     * otherwise record one Logout for the user, which throws when the user is unknown.
     */
    method Logout(request: Option<LogoutRequest>, eventId: Guid, now: Instant) returns (r: Result<ActionResult<()>, Fault>)
      requires Wired() && Db().Valid() && FreshEventId(Db().State(), eventId)
      modifies Db()
      ensures Db().Valid()
      ensures (request.None? || request.value.userId == EmptyGuid) ==>
        r == Success(BadRequest(InvalidLogoutMessage)) && Db().State() == old(Db().State())
      ensures (request.Some? && request.value.userId != EmptyGuid) ==>
        && (r.Success? <==> request.value.userId in old(Db().users))
        && (r.Success? ==> r.value == Ok(()))
        && (r.Failure? ==> r.error == DbUpdate(ForeignKey("FK_SecurityEvents_Users_AuthorUserId")))
        && Db().State() == if r.Success?
             then old(Db().State()).(securityEvents := old(Db().securityEvents) + [LogoutEvent(eventId, request.value.userId, now)])
             else old(Db().State())
    {
      if request.None? || request.value.userId == EmptyGuid {
        return Success(BadRequest(InvalidLogoutMessage));
      }
      var logged := securityEventService.LogLogout(request.value.userId, eventId, now);
      if logged.Fail? {
        return Failure(logged.error);
      }
      r := Success(Ok(()));
    }
  }
}
