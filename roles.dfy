/** The four account variants and the integer selector that chooses one. */
module Roles {
  import opened Wrappers

  /** The subclasses of `User`; the same four names make up the `UserRole` enum,
      whose members are numbered in this order from 0. */
  datatype Role = Student | Senior | Parent | Admin

  /** The `UserRole` value of a role, i.e. `(int)role`. */
  function Code(role: Role): (n: int)
    ensures 0 <= n <= 3
  {
    match role
    case Student => 0
    case Senior => 1
    case Parent => 2
    case Admin => 3
  }

  /** The `switch` on the request's role selector: 0, 1, 2, 3 construct a
      Student, Senior, Parent, Admin; anything else is the "Invalid role" case. */
  function FromSelector(selector: int): (r: Option<Role>)
    ensures r.Some? <==> 0 <= selector <= 3
    ensures r.Some? ==> Code(r.value) == selector
  {
    if selector == 0 then Some(Student)
    else if selector == 1 then Some(Senior)
    else if selector == 2 then Some(Parent)
    else if selector == 3 then Some(Admin)
    else None
  }

  /** Every role is reached by exactly its own code. */
  lemma SelectorOfCode(role: Role, selector: int)
    ensures FromSelector(selector) == Some(role) <==> selector == Code(role)
  {
  }

  /** `UserRole.ToString()`: the member's name. */
  function Name(role: Role): (s: string)
    ensures |s| > 0
  {
    match role
    case Student => "Student"
    case Senior => "Senior"
    case Parent => "Parent"
    case Admin => "Admin"
  }

  /** Distinct roles have distinct names, so the role claim determines the role. */
  lemma NameInjective(a: Role, b: Role)
    ensures Name(a) == Name(b) ==> a == b
  {
  }
}
