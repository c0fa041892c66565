/** The `User` entity: constructor fields, `create`, `fullName` and the `isActive` toggle. */
module UserEntity {
  import opened Wrappers

  datatype UserRole = SUPERADMIN | RESTAURANT_ADMIN

  /** The constructor arguments of `User`, in their declared order. */
  datatype UserProps = UserProps(
    id: string,
    firstName: string,
    lastName: string,
    phone: string,
    email: string,
    passwordHash: string,
    role: UserRole,
    mustChangePassword: bool,
    isActive: bool,
    createdAt: Option<int>,
    updatedAt: Option<int>)

  /** The parameter object of `User.create`. */
  datatype NewUser = NewUser(
    id: string,
    firstName: string,
    lastName: string,
    phone: string,
    email: string,
    passwordHash: string,
    role: UserRole,
    mustChangePassword: bool,
    isActive: bool)

  /** The `fullName` getter: first name, one space, last name. */
  function FullName(p: UserProps): (s: string)
    ensures |s| == |p.firstName| + 1 + |p.lastName|
    ensures s[..|p.firstName|] == p.firstName && s[|p.firstName|] == ' '
    ensures s[|p.firstName| + 1..] == p.lastName
  {
    p.firstName + " " + p.lastName
  }

  /** A full name splits back into its parts whenever the first name has no space. */
  lemma FullNameInjective(p: UserProps, q: UserProps)
    requires ' ' !in p.firstName && ' ' !in q.firstName
    requires FullName(p) == FullName(q)
    ensures p.firstName == q.firstName && p.lastName == q.lastName
  {
  }

  /** The entity after `toggleIsActive`. */
  function Toggled(p: UserProps): (q: UserProps)
    ensures q.isActive != p.isActive
  {
    p.(isActive := !p.isActive)
  }

  /** Toggling twice restores the entity, and a toggle leaves every other field alone. */
  lemma ToggleTwice(p: UserProps)
    ensures Toggled(Toggled(p)) == p
    ensures Toggled(p).(isActive := p.isActive) == p
  {
  }

  class User {
    const id: string
    var firstName: string
    var lastName: string
    var phone: string
    const email: string
    var passwordHash: string
    const role: UserRole
    var mustChangePassword: bool
    var isActive: bool
    const createdAt: Option<int>
    const updatedAt: Option<int>

    function Props(): UserProps
      reads this
    {
      UserProps(id, firstName, lastName, phone, email, passwordHash, role, mustChangePassword,
        isActive, createdAt, updatedAt)
    }

    /** `new User(...)` with every field given. */
    constructor (p: UserProps)
      ensures Props() == p
    {
      id, firstName, lastName, phone, email := p.id, p.firstName, p.lastName, p.phone, p.email;
      passwordHash, role, mustChangePassword := p.passwordHash, p.role, p.mustChangePassword;
      isActive, createdAt, updatedAt := p.isActive, p.createdAt, p.updatedAt;
    }

    /** `User.create`: the nine given fields in their positions, no timestamps yet. */
    constructor Create(params: NewUser)
      ensures Props() == UserProps(params.id, params.firstName, params.lastName, params.phone,
        params.email, params.passwordHash, params.role, params.mustChangePassword,
        params.isActive, None, None)
    {
      id, firstName, lastName, phone := params.id, params.firstName, params.lastName, params.phone;
      email, passwordHash, role := params.email, params.passwordHash, params.role;
      mustChangePassword, isActive := params.mustChangePassword, params.isActive;
      createdAt, updatedAt := None, None;
    }

    /** `toggleIsActive`: negates `isActive` and touches nothing else. */
    method ToggleIsActive()
      modifies this
      ensures Props() == Toggled(old(Props()))
    {
      isActive := !isActive;
    }
  }
}
