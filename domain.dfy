/** The account entities, their value views, and the invariants of the account store. */
module Domain {
  import opened Wrappers
  import opened Guids
  import opened Roles

  /** What the core reads of an account: its runtime variant (which subclass of
      `User` it is), id, name, email, the `Role` property, and the Student-only
      `VerifiedByParentId`. */
  datatype AccountView = AccountView(
    variant: Role,
    id: Guid,
    name: string,
    email: string,
    role: Role,
    verifiedByParentId: Option<Guid>)

  /** A `VerifiedStudent` row: a parent vouching for a student. */
  datatype VerifiedStudent = VerifiedStudent(parentId: Guid, studentId: Guid)

  /** The account store (keyed by email) together with the verification links. */
  datatype Directory = Directory(accounts: map<string, AccountView>, links: seq<VerifiedStudent>)

  /** A `User` entity. `variant` is the subclass chosen at construction and never
      changes; `verifiedByParentId` stands for `Student.VerifiedByParentId` and is
      only ever set on a Student. */
  class Account {
    const variant: Role
    var id: Guid
    var name: string
    var email: string
    var role: Role
    var passwordHash: string
    var verifiedByParentId: Option<Guid>

    /** `new Student()`, `new Senior()`, `new Parent()`, `new Admin()`. */
    constructor (variant: Role)
      ensures this.variant == variant && Valid()
      ensures View() == AccountView(variant, Empty, "", "", Student, None)
    {
      this.variant := variant;
      id := Empty;
      name := "";
      email := "";
      role := Student;
      passwordHash := "";
      verifiedByParentId := None;
    }

    function View(): (v: AccountView)
      reads this
    {
      AccountView(variant, id, name, email, role, verifiedByParentId)
    }

    /** Only a Student carries a parent reference. */
    ghost predicate Valid()
      reads this
    {
      variant == Student || verifiedByParentId.None?
    }
  }

  /** The store is keyed by each account's own email, ids are unique, and only
      Students carry a parent reference. */
  ghost predicate StoreOk(s: map<string, AccountView>) {
    && (forall e :: e in s ==> s[e].email == e)
    && (forall e1, e2 :: e1 in s && e2 in s && s[e1].id == s[e2].id ==> e1 == e2)
    && (forall e :: e in s ==> s[e].variant == Student || s[e].verifiedByParentId.None?)
  }

  /** Adding an account the store accepts, filed under its own email, keeps the invariant. */
  lemma StoreOkAdd(s: map<string, AccountView>, a: AccountView)
    requires StoreOk(s) && Accepts(s, a.email, a.id)
    requires a.variant == Student || a.verifiedByParentId.None?
    ensures StoreOk(s[a.email := a])
  {
  }

  /** Some stored account has this id and this variant. */
  ghost predicate HasAccount(s: map<string, AccountView>, id: Guid, variant: Role) {
    exists e :: e in s && s[e].id == id && s[e].variant == variant
  }

  /** Every link joins an existing Parent to an existing Student. */
  ghost predicate LinksOk(d: Directory) {
    forall i :: 0 <= i < |d.links| ==>
      HasAccount(d.accounts, d.links[i].parentId, Parent) && HasAccount(d.accounts, d.links[i].studentId, Student)
  }

  /** The store accepts a new account when its email and its id are both unused. */
  predicate Accepts(s: map<string, AccountView>, email: string, id: Guid) {
    email !in s && forall e :: e in s ==> s[e].id != id
  }

  /** An account keeps its id and variant from `s` to `t`, so links into `s` stay valid in `t`. */
  lemma HasAccountKept(s: map<string, AccountView>, t: map<string, AccountView>, id: Guid, variant: Role)
    requires forall e :: e in s ==> e in t && t[e].id == s[e].id && t[e].variant == s[e].variant
    requires HasAccount(s, id, variant)
    ensures HasAccount(t, id, variant)
  {
  }
}
