/**
 * The older data-access classes (Repositories/UserRepository.cs and
 * Repositories/RoleRepository.cs), used by the legacy user service. They run
 * the same queries as the newer repositories over the same context, with fewer
 * operations.
 */
module LegacyRepositories {
  import opened Wrappers
  import opened Entities
  import opened AuditDb

  class UserRepository {
    const db: AuditDbContext

    constructor (context: AuditDbContext)
      ensures db == context
    {
      db := context;
    }

    /** GetByEmailAsync: the user with that email, or null exactly when none exists. */
    method GetByEmail(email: string) returns (r: Option<User>)
      requires db.Valid()
      ensures FoundUser(db.users, ByEmail(email), r)
      ensures r.Some? ==> forall id :: id in db.users && db.users[id].email == email ==> id == r.value.id
    {
      r := db.FindUser(ByEmail(email));
    }

    /** GetByExternalIdAsync: some user with that external id, or null exactly when none matches. */
    method GetByExternalId(externalId: string) returns (r: Option<User>)
      requires db.Valid()
      ensures FoundUser(db.users, ByExternalId(externalId), r)
    {
      r := db.FindUser(ByExternalId(externalId));
    }

    /** GetByIdWithRoleAndClaimsAsync: the user stored under `id`, or null. */
    method GetByIdWithRoleAndClaims(id: Guid) returns (r: Option<User>)
      requires db.Valid()
      ensures r.Some? <==> id in db.users
      ensures r.Some? ==> r.value == db.users[id]
    {
      r := db.FindUser(ById(id));
    }

    /** CreateAsync: insert the row and return the same user, or throw what SaveChanges throws. */
    method Create(user: User) returns (r: Result<User, Fault>)
      requires db.Valid()
      modifies db
      ensures db.Valid()
      ensures r.Success? <==> InsertUserViolation(old(db.State()), user).None?
      ensures r.Success? ==> r.value == user && db.State() == old(db.State()).(users := old(db.users)[user.id := user])
      ensures r.Failure? ==> r.error == DbUpdate(InsertUserViolation(old(db.State()), user).value) && db.State() == old(db.State())
    {
      var saved := db.AddUser(user);
      match saved
      case Pass => r := Success(user);
      case Fail(f) => r := Failure(f);
    }

    /** UpdateAsync: overwrite the row `user.id`, or throw what SaveChanges throws. */
    method Update(user: User) returns (r: Outcome<Fault>)
      requires db.Valid()
      modifies db
      ensures db.Valid()
      ensures r == Saved(UpdateUserViolation(old(db.State()), user))
      ensures db.State() == if r.Pass? then old(db.State()).(users := old(db.users)[user.id := user]) else old(db.State())
    {
      r := db.UpdateUser(user);
    }

    /** GetAllWithRolesAsync: every user once, in no particular order. */
    method GetAllWithRoles() returns (r: seq<User>)
      requires db.Valid()
      ensures ListsEveryUser(db.users, r)
    {
      r := db.ListUsers();
    }
  }

  class RoleRepository {
    const db: AuditDbContext

    constructor (context: AuditDbContext)
      ensures db == context
    {
      db := context;
    }

    /** GetByIdAsync: the role stored under `id`, or null. */
    method GetById(id: Guid) returns (r: Option<Role>)
      requires db.Valid()
      ensures r.Some? <==> id in db.roles
      ensures r.Some? ==> r.value == db.roles[id]
    {
      r := db.FindRole(RoleById(id));
    }

    /** GetByNameAsync: the role with that name, or null. */
    method GetByName(name: string) returns (r: Option<Role>)
      requires db.Valid()
      ensures FoundRole(db.roles, RoleByName(name), r)
      ensures r.Some? ==> forall id :: id in db.roles && db.roles[id].name == name ==> id == r.value.id
    {
      r := db.FindRole(RoleByName(name));
    }

    /** GetAllWithClaimsAsync: every role once, in no particular order. */
    method GetAllWithClaims() returns (r: seq<Role>)
      requires db.Valid()
      ensures ListsEveryRole(db.roles, r)
    {
      r := db.ListRoles();
    }
  }
}
