/** What `Register` and `Login` do, as functions of the store before the call. */
module Workflow {
  import opened Wrappers
  import opened Guids
  import opened Roles
  import opened Text
  import opened Domain
  import opened Tokens

  /** The `UserRegisterDto` fields the controller reads. */
  datatype RegisterInput = RegisterInput(
    name: string,
    email: string,
    password: string,
    role: int,
    studentEmail: Option<string>)

  /** `ArgumentException("Invalid role")`, or the user service refusing the account. */
  datatype RegisterError = InvalidRole | RegistrationFailed

  /** `Ok()`, or the error that ends the request. */
  datatype RegisterResult = Registered | Rejected(error: RegisterError)

  datatype Registration = Registration(after: Directory, result: RegisterResult)

  /** The link branch applies: a Parent was created, a non-blank child email was
      given, and that email belongs to a Student. */
  ghost predicate LinksChild(d: Directory, input: RegisterInput) {
    && input.role == Code(Parent)
    && !IsNullOrWhiteSpace(input.studentEmail)
    && input.studentEmail.value in d.accounts
    && d.accounts[input.studentEmail.value].variant == Student
  }

  /** Registration: choose the variant, copy name, email and role into the new
      account, let the store accept it under `newId`, then link a named Student. */
  function Register(d: Directory, input: RegisterInput, newId: Guid): (r: Registration)
    ensures r.result == Rejected(InvalidRole) <==> !(0 <= input.role <= 3)
    ensures r.result == Rejected(RegistrationFailed) <==>
              0 <= input.role <= 3 && !Accepts(d.accounts, input.email, newId)
    ensures r.result.Rejected? ==> r.after == d
    ensures r.result == Registered ==>
              && r.after.accounts.Keys == d.accounts.Keys + {input.email}
              && var a := r.after.accounts[input.email];
                 a.id == newId && a.name == input.name && a.email == input.email
                 && Code(a.variant) == input.role && a.role == a.variant
    ensures forall e :: e in d.accounts ==>
              e in r.after.accounts
              && r.after.accounts[e].(verifiedByParentId := d.accounts[e].verifiedByParentId) == d.accounts[e]
  {
    match FromSelector(input.role)
    case None => Registration(d, Rejected(InvalidRole))
    case Some(role) =>
      if !Accepts(d.accounts, input.email, newId) then Registration(d, Rejected(RegistrationFailed))
      else
        var parent := AccountView(role, newId, input.name, input.email, role, None);
        Registration(VerifyChild(Directory(d.accounts[input.email := parent], d.links), parent, input.studentEmail),
                     Registered)
  }

  /** The verification step after the account is stored: when the new account is
      a Parent and a non-blank child email names a Student, that Student's parent
      reference becomes the parent's id and one link is appended. */
  function VerifyChild(d: Directory, parent: AccountView, studentEmail: Option<string>): (r: Directory)
    ensures r.accounts.Keys == d.accounts.Keys
    ensures forall e :: e in d.accounts ==>
              r.accounts[e].(verifiedByParentId := d.accounts[e].verifiedByParentId) == d.accounts[e]
    ensures r.links == d.links
            || (|r.links| == |d.links| + 1 && r.links[..|d.links|] == d.links && r.links[|d.links|].parentId == parent.id)
  {
    if parent.variant == Parent && !IsNullOrWhiteSpace(studentEmail)
       && studentEmail.value in d.accounts && d.accounts[studentEmail.value].variant == Student
    then Link(d, parent.id, studentEmail.value)
    else d
  }

  /** The Student filed under `c` gets `parentId` as its parent reference, and
      one link from `parentId` to that Student's id is appended. */
  function Link(d: Directory, parentId: Guid, c: string): (r: Directory)
    requires c in d.accounts
    ensures r.accounts.Keys == d.accounts.Keys
    ensures r.accounts[c] == d.accounts[c].(verifiedByParentId := Some(parentId))
    ensures forall e :: e in d.accounts && e != c ==> r.accounts[e] == d.accounts[e]
    ensures r.links == d.links + [VerifiedStudent(parentId, d.accounts[c].id)]
  {
    var student := d.accounts[c];
    Directory(d.accounts[c := student.(verifiedByParentId := Some(parentId))],
              d.links + [VerifiedStudent(parentId, student.id)])
  }

  /** A registered Parent naming a Student's email appends exactly one link from
      the parent's id to the student's id and sets that Student's parent
      reference; every other account is as before. */
  lemma ParentLinksStudent(d: Directory, input: RegisterInput, newId: Guid)
    requires Accepts(d.accounts, input.email, newId)
    requires LinksChild(d, input)
    ensures var r := Register(d, input, newId);
      var c := input.studentEmail.value;
      && r.result == Registered
      && r.after.links == d.links + [VerifiedStudent(newId, d.accounts[c].id)]
      && r.after.accounts[c] == d.accounts[c].(verifiedByParentId := Some(newId))
      && forall e :: e in d.accounts && e != c ==> r.after.accounts[e] == d.accounts[e]
  {
  }

  /** In every other case no link is added, no existing account changes, and a
      registration the store accepts still succeeds. */
  lemma NoLinkOtherwise(d: Directory, input: RegisterInput, newId: Guid)
    requires !LinksChild(d, input)
    ensures var r := Register(d, input, newId);
      && r.after.links == d.links
      && (forall e :: e in d.accounts ==> r.after.accounts[e] == d.accounts[e])
      && (0 <= input.role <= 3 && Accepts(d.accounts, input.email, newId) ==> r.result == Registered)
  {
  }

  /** Registration keeps the store's invariant and keeps every link pointing at a
      Parent and a Student that exist. */
  lemma RegisterKeepsInvariant(d: Directory, input: RegisterInput, newId: Guid)
    requires StoreOk(d.accounts) && LinksOk(d)
    ensures StoreOk(Register(d, input, newId).after.accounts)
    ensures LinksOk(Register(d, input, newId).after)
  {
    var r := Register(d, input, newId);
    if r.result == Registered {
      var t := r.after.accounts;
      forall i | 0 <= i < |r.after.links|
        ensures HasAccount(t, r.after.links[i].parentId, Parent)
        ensures HasAccount(t, r.after.links[i].studentId, Student)
      {
        if i < |d.links| {
          assert r.after.links[i] == d.links[i];
          HasAccountKept(d.accounts, t, d.links[i].parentId, Parent);
          HasAccountKept(d.accounts, t, d.links[i].studentId, Student);
        } else {
          var c := input.studentEmail.value;
          assert LinksChild(d, input);
          assert t[input.email].id == r.after.links[i].parentId && t[input.email].variant == Parent;
          assert t[c].id == r.after.links[i].studentId && t[c].variant == Student;
        }
      }
    }
  }

  const InvalidCredentials: string := "Invalid credentials"

  /** The `AuthResponseDto`. */
  datatype AuthResponse = AuthResponse(
    token: Token,
    id: Guid,
    name: string,
    email: string,
    role: string,
    verifiedByParentId: Option<Guid>)

  /** `Unauthorized("Invalid credentials")` or `Ok(response)`. */
  datatype LoginResult = Unauthorized(message: string) | LoggedIn(response: AuthResponse)

  /** The login outcome: the single generic failure when authentication found no
      account; otherwise a token carrying the account's claims and a response
      copied from the account, with the parent reference for Students only. */
  function Login(auth: Option<AccountView>, config: JwtConfig): (r: LoginResult)
    ensures r.Unauthorized? <==> auth.None?
    ensures r.Unauthorized? ==> r == Unauthorized(InvalidCredentials)
    ensures r.LoggedIn? ==>
              var u := auth.value;
              var resp := r.response;
              && resp.token.claims == Claims(u.name, u.role, u.id)
              && resp.token.issuer == config.issuer && resp.token.audience == config.audience
              && resp.id == u.id && resp.name == u.name && resp.email == u.email
              && resp.role == Roles.Name(u.role)
              && (u.variant == Student ==> resp.verifiedByParentId == u.verifiedByParentId)
              && (u.variant != Student ==> resp.verifiedByParentId == None)
    ensures r.LoggedIn? ==>
              && Find(r.response.token.claims, NameClaim) == Some(r.response.name)
              && Find(r.response.token.claims, RoleClaim) == Some(r.response.role)
              && Find(r.response.token.claims, NameIdentifierClaim) == Some(Guids.ToString(r.response.id))
  {
    match auth
    case None => Unauthorized(InvalidCredentials)
    case Some(u) =>
      LoggedIn(AuthResponse(
        Issue(Claims(u.name, u.role, u.id), config),
        u.id, u.name, u.email, Roles.Name(u.role),
        if u.variant == Student then u.verifiedByParentId else None))
  }

  /** Two accounts that log in with the same token have the same id, name and role. */
  lemma TokenIdentifiesAccount(a: AccountView, b: AccountView, config: JwtConfig)
    requires Login(Some(a), config).response.token == Login(Some(b), config).response.token
    ensures a.id == b.id && a.name == b.name && a.role == b.role
  {
    ClaimsIdentify(a.name, a.role, a.id, b.name, b.role, b.id);
  }

  /** A Student registered first and then named by a Parent's registration is
      linked once to that parent, and logging in as the Student reports the
      parent's id. The later login reads the Student from the store as the
      Parent's registration left it, so this assumes that the in-place change
      to the Student's parent reference is kept by the store. */
  lemma StudentThenParent(d: Directory, student: RegisterInput, sid: Guid, parent: RegisterInput, pid: Guid,
                          config: JwtConfig)
    requires student.role == Code(Student) && Accepts(d.accounts, student.email, sid)
    requires parent.role == Code(Parent) && parent.studentEmail == Some(student.email)
    requires !IsNullOrWhiteSpace(parent.studentEmail)
    requires var d1 := Register(d, student, sid).after; Accepts(d1.accounts, parent.email, pid)
    ensures var d1 := Register(d, student, sid).after;
      var d2 := Register(d1, parent, pid).after;
      && d2.links == d.links + [VerifiedStudent(pid, sid)]
      && Login(Some(d2.accounts[student.email]), config).response.verifiedByParentId == Some(pid)
  {
    var d1 := Register(d, student, sid).after;
    assert d1.accounts[student.email].variant == Student;
    ParentLinksStudent(d1, parent, pid);
  }
}
