/**
 * The data-access layer used by the services (Repositories/Implementations):
 * one class per table, each holding the shared `AuditDbContext`. Reads are
 * FirstOrDefault / ToList / filtered-and-ordered queries; writes go through
 * SaveChanges and may be rejected by the store's constraints.
 */
module Repositories {
  import opened Wrappers
  import opened Entities
  import opened AuditDb
  import opened EventQueries

  class UserRepository {
    const db: AuditDbContext

    constructor (context: AuditDbContext)
      ensures db == context
    {
      db := context;
    }

    /** GetByEmailAsync: a user with that email or null; the unique index makes it the only one. */
    method GetByEmail(email: string) returns (r: Option<User>)
      requires db.Valid()
      ensures FoundUser(db.users, ByEmail(email), r)
      ensures r.Some? ==> forall id :: id in db.users && db.users[id].email == email ==> id == r.value.id
    {
      r := db.FindUser(ByEmail(email));
    }

    /** GetByExternalIdAsync: some user with that external id, or null when there is none. */
    method GetByExternalId(externalId: string) returns (r: Option<User>)
      requires db.Valid()
      ensures FoundUser(db.users, ByExternalId(externalId), r)
    {
      r := db.FindUser(ByExternalId(externalId));
    }

    /** GetByIdWithRoleAndClaimsAsync: the user stored under `id`, or null. */
    method GetByIdWithRoleAndClaims(id: Guid) returns (r: Option<User>)
      requires db.Valid()
      ensures r.Some? <==> id in db.users
      ensures r.Some? ==> r.value == db.users[id]
    {
      r := db.FindUser(ById(id));
    }

    /** GetByIdAsync: the user stored under `id`, or null. */
    method GetById(id: Guid) returns (r: Option<User>)
      requires db.Valid()
      ensures r.Some? <==> id in db.users
      ensures r.Some? ==> r.value == db.users[id]
    {
      r := db.FindUser(ById(id));
    }

    /** CreateAsync: insert the row and return the same user, or throw what SaveChanges throws. */
    method Create(user: User) returns (r: Result<User, Fault>)
      requires db.Valid()
      modifies db
      ensures db.Valid()
      ensures r.Success? <==> InsertUserViolation(old(db.State()), user).None?
      ensures r.Success? ==> r.value == user && db.State() == old(db.State()).(users := old(db.users)[user.id := user])
      ensures r.Failure? ==> r.error == DbUpdate(InsertUserViolation(old(db.State()), user).value) && db.State() == old(db.State())
    {
      var saved := db.AddUser(user);
      match saved
      case Pass => r := Success(user);
      case Fail(f) => r := Failure(f);
    }

    /** UpdateAsync: overwrite the row `user.id`, or throw what SaveChanges throws. */
    method Update(user: User) returns (r: Outcome<Fault>)
      requires db.Valid()
      modifies db
      ensures db.Valid()
      ensures r == Saved(UpdateUserViolation(old(db.State()), user))
      ensures db.State() == if r.Pass? then old(db.State()).(users := old(db.users)[user.id := user]) else old(db.State())
    {
      r := db.UpdateUser(user);
    }

    /** GetAllWithRolesAsync: every user once, in no particular order. */
    method GetAllWithRoles() returns (r: seq<User>)
      requires db.Valid()
      ensures ListsEveryUser(db.users, r)
    {
      r := db.ListUsers();
    }

    /** GetAllAsync: every user once, in no particular order. */
    method GetAll() returns (r: seq<User>)
      requires db.Valid()
      ensures ListsEveryUser(db.users, r)
    {
      r := db.ListUsers();
    }
  }

  class RoleRepository {
    const db: AuditDbContext

    constructor (context: AuditDbContext)
      ensures db == context
    {
      db := context;
    }

    /** GetByIdAsync: the role stored under `id`, or null. */
    method GetById(id: Guid) returns (r: Option<Role>)
      requires db.Valid()
      ensures r.Some? <==> id in db.roles
      ensures r.Some? ==> r.value == db.roles[id]
    {
      r := db.FindRole(RoleById(id));
    }

    /** GetByNameAsync: the role with that name, or null; role names are unique. */
    method GetByName(name: string) returns (r: Option<Role>)
      requires db.Valid()
      ensures FoundRole(db.roles, RoleByName(name), r)
      ensures r.Some? ==> forall id :: id in db.roles && db.roles[id].name == name ==> id == r.value.id
    {
      r := db.FindRole(RoleByName(name));
    }

    /** GetAllWithClaimsAsync: every role once, in no particular order. */
    method GetAllWithClaims() returns (r: seq<Role>)
      requires db.Valid()
      ensures ListsEveryRole(db.roles, r)
    {
      r := db.ListRoles();
    }

    /** GetAllAsync: every role once, in no particular order. */
    method GetAll() returns (r: seq<Role>)
      requires db.Valid()
      ensures ListsEveryRole(db.roles, r)
    {
      r := db.ListRoles();
    }
  }

  class SecurityEventRepository {
    const db: AuditDbContext

    constructor (context: AuditDbContext)
      ensures db == context
    {
      db := context;
    }

    /** CreateAsync: append the event and return it, or throw what SaveChanges throws. */
    method Create(e: SecurityEvent) returns (r: Result<SecurityEvent, Fault>)
      requires db.Valid()
      modifies db
      ensures db.Valid()
      ensures r.Success? <==> InsertEventViolation(old(db.State()), e).None?
      ensures r.Success? ==> r.value == e && db.State() == old(db.State()).(securityEvents := old(db.securityEvents) + [e])
      ensures r.Failure? ==> r.error == DbUpdate(InsertEventViolation(old(db.State()), e).value) && db.State() == old(db.State())
    {
      var saved := db.AddSecurityEvent(e);
      match saved
      case Pass => r := Success(e);
      case Fail(f) => r := Failure(f);
    }

    /** GetAuthEventsAsync: the LoginSuccess and Logout events, newest first. */
    method GetAuthEvents() returns (r: seq<SecurityEvent>)
      ensures IsQueryResult(db.securityEvents, AuthEvents, r)
    {
      r := Query(db.securityEvents, AuthEvents);
    }

    /** GetRoleChangeEventsAsync: the RoleAssigned events, newest first. */
    method GetRoleChangeEvents() returns (r: seq<SecurityEvent>)
      ensures IsQueryResult(db.securityEvents, RoleChangeEvents, r)
    {
      r := Query(db.securityEvents, RoleChangeEvents);
    }

    /** GetAllAsync: every event, newest first. */
    method GetAll() returns (r: seq<SecurityEvent>)
      ensures IsQueryResult(db.securityEvents, AllEvents, r)
    {
      r := Query(db.securityEvents, AllEvents);
    }
  }

  /**
   * After a user is inserted, looking its email up finds exactly that user: the
   * unique index leaves no other row to return.
   */
  lemma InsertedUserIsFoundByEmail(t: Tables, u: User, r: Option<User>)
    requires InsertUserViolation(t, u).None?
    requires FoundUser(t.users[u.id := u], ByEmail(u.email), r)
    ensures r == Some(u)
  {
    var users := t.users[u.id := u];
    assert u.id in users && UserMatches(users[u.id], ByEmail(u.email));
  }

  /** Inserting an event adds it to the answer of every query whose category it is in, and to no other. */
  lemma {:induction false} InsertedEventJoinsItsCategory(events: seq<SecurityEvent>, e: SecurityEvent, c: EventCategory, r: seq<SecurityEvent>)
    requires IsQueryResult(events + [e], c, r)
    ensures InCategory(c, e) <==> e in r
    ensures forall x :: x != e ==> multiset(r)[x] == multiset(Query(events, c))[x]
  {
    assert multiset(events + [e]) == multiset(events) + multiset{e};
    assert InCategory(c, e) ==> multiset(r)[e] > 0;
  }
}
