/** The user-details service: resolve a login e-mail to the user's details,
    and normalise a user record before persisting it. */
module UserDetailsService {
  import opened Wrappers
  import opened Domain
  import opened UserStore

  /** The error raised when a login e-mail resolves to no user. */
  datatype AuthError = UsernameNotFound(message: string)

  const UsernameNotFoundMessage := "Username not found"

  /** Name of the one role every saved user receives. */
  const AdminRoleName := "ADMIN"

  /** The details handed to the authentication framework: a wrapper around
      exactly the stored user. */
  datatype UserDetails = UserDetails(user: User)

  /** The role collection, keyed by role name. */
  type RoleRepository = map<string, Role>

  /** Lookup of a role by name; None is the null the repository returns for
      an unknown name. */
  function FindByRole(roles: RoleRepository, name: string): Option<Role>
  {
    if name in roles then Some(roles[name]) else None
  }

  /** Resolve a login e-mail to the stored user, or fail with
      UsernameNotFound. */
  method LoadUserByUsername(users: Users, email: string) returns (r: Result<UserDetails, AuthError>)
    ensures r.Failure? <==> !HasUserWith(users, ByEmail(email))
    ensures r.Failure? ==> r.error == UsernameNotFound(UsernameNotFoundMessage)
    ensures r.Success? ==> r.value.user in users.Values && r.value.user.email == email
  {
    var found := FindOne(users, ByEmail(email));
    if found.None? {
      return Failure(UsernameNotFound(UsernameNotFoundMessage));
    }
    return Success(UserDetails(found.value));
  }

  /** The record saveUser persists for an incoming user: password encoded,
      account enabled, roles replaced by the ADMIN role alone. */
  function Normalise(u: User, encode: string -> string, roles: RoleRepository): (saved: User)
    ensures saved.password == encode(u.password)
    ensures saved.enabled
    ensures saved.roles == {FindByRole(roles, AdminRoleName)}
    ensures saved.id == u.id && saved.email == u.email && saved.phoneNumber == u.phoneNumber
  {
    var adminRole := FindByRole(roles, AdminRoleName);
    u.(password := encode(u.password), enabled := true, roles := {adminRole})
  }

  /** saveUser: normalise the record and persist it, replacing the document
      with the same id and leaving every other one alone. */
  function SaveUser(users: Users, u: User, encode: string -> string, roles: RoleRepository): (users': Users)
    ensures WellKeyed(users) ==> WellKeyed(users')
    ensures users'.Keys == users.Keys + {u.id}
    ensures forall id :: id in users && id != u.id ==> users'[id] == users[id]
    ensures var saved := users'[u.id];
      && saved.password == encode(u.password)
      && saved.enabled
      && saved.roles == {FindByRole(roles, AdminRoleName)}
      && saved.id == u.id && saved.email == u.email && saved.phoneNumber == u.phoneNumber
  {
    Save(users, Normalise(u, encode, roles))
  }

  /** A user just saved can log in: loading by its e-mail succeeds. When
      the ADMIN role exists, the saved role set holds exactly that role. */
  lemma SavedUserCanBeLoaded(users: Users, u: User, encode: string -> string, roles: RoleRepository)
    ensures HasUserWith(SaveUser(users, u, encode, roles), ByEmail(u.email))
    ensures AdminRoleName in roles ==>
      SaveUser(users, u, encode, roles)[u.id].roles == {Some(roles[AdminRoleName])}
  {
  }
}
