/** User records as the credential store keeps them, the password-free view
    of them that leaves the store, the four named roles, and the payload of an
    identity token. */
module Accounts {
  import opened Common

  /** A stored user row. `role` is kept as text: registration stores whatever
      role it is given. Creation and update timestamps are not modelled. */
  datatype User = User(
    id: int,
    email: string,
    password: string,        // the bcrypt hash, never the clear text
    name: Option<string>,
    lastName: Option<string>,
    role: string,
    avatar: string)

  /** `const { password, ...userData } = user`: every field but the hash. */
  datatype PublicUser = PublicUser(
    id: int,
    email: string,
    name: Option<string>,
    lastName: Option<string>,
    role: string,
    avatar: string)

  /** The columns the `users` and `user` handlers select (no hash, no avatar). */
  datatype UserSummary = UserSummary(
    id: int,
    email: string,
    name: Option<string>,
    lastName: Option<string>,
    role: string)

  /** Puts a hash back on a password-free view. */
  function WithPassword(p: PublicUser, password: string): User
  {
    User(p.id, p.email, password, p.name, p.lastName, p.role, p.avatar)
  }

  /** Removes the password hash and keeps every other field: putting the hash
      back gives the stored record again. */
  function Strip(u: User): (p: PublicUser)
    ensures WithPassword(p, u.password) == u
  {
    PublicUser(u.id, u.email, u.name, u.lastName, u.role, u.avatar)
  }

  /** The `select` of the profile and listing queries: every field but the
      password hash and the avatar. */
  function Summary(u: User): (s: UserSummary)
    ensures s.id == u.id && s.email == u.email && s.role == u.role
    ensures s.name == u.name && s.lastName == u.lastName
  {
    UserSummary(u.id, u.email, u.name, u.lastName, u.role)
  }

  /** Two records have the same public view exactly when they differ at most
      in their password hash. */
  lemma StripForgetsOnlyPassword(u: User, v: User)
    ensures Strip(u) == Strip(v) <==> u.(password := v.password) == v
  {
  }

  /** The roles `updateUserRole` accepts. */
  datatype Role = Student | Professor | RegularUser | Admin

  function RoleName(r: Role): string
  {
    match r
    case Student => "STUDENT"
    case Professor => "PROFESSOR"
    case RegularUser => "USER"
    case Admin => "ADMIN"
  }

  /** `!role || !['STUDENT', 'PROFESSOR', 'USER', 'ADMIN'].includes(role)`
      fails exactly when this gives `None`. An accepted role names itself,
      and every name of a role is accepted. */
  function ParseRole(role: Option<string>): (r: Option<Role>)
    ensures r.Some? ==> role == Some(RoleName(r.value))
    ensures r.None? ==> forall x: Role :: role != Some(RoleName(x))
  {
    if role == Some("STUDENT") then Some(Student)
    else if role == Some("PROFESSOR") then Some(Professor)
    else if role == Some("USER") then Some(RegularUser)
    else if role == Some("ADMIN") then Some(Admin)
    else None
  }

  /** `+decoded.userId`: either an integer, or a value (NaN, a fraction) that
      the store refuses as a user id by throwing. Integers are unbounded here:
      one too large for the id column, which would also make the store throw,
      still counts as `Integer`. */
  datatype Subject = Integer(value: int) | NonInteger

  /** What a verified token carries. */
  datatype JwtPayload = JwtPayload(userId: Subject, role: string)
}
