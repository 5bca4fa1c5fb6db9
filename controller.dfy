/** `AuthController`: registration and login, proved against the functions of
    module Workflow. */
module Controller {
  import opened Wrappers
  import opened Guids
  import opened Roles
  import opened Text
  import opened Domain
  import opened Tokens
  import opened Services
  import opened Workflow

  /** Filing a value under a new key keeps every existing entry. */
  lemma KeptUnderNewKey(h: map<string, string>, k: string, v: string)
    requires k !in h
    ensures forall e | e in h :: e in h[k := v] && h[k := v][e] == h[e]
  {
  }

  /** Every member of a subset of `b + {x}` is in `b` or is `x`. */
  lemma WithinAdded(a: set<Account>, b: set<Account>, x: Account)
    requires a <= b + {x}
    ensures forall o | o in a :: o in b || o == x
  {
  }

  class AuthController {
    const users: UserService
    const context: TalentLinkDb
    const configuration: JwtConfig

    constructor (userService: UserService, configuration: JwtConfig, context: TalentLinkDb)
      requires userService.Valid() && LinksOk(Directory(userService.Store(), context.verifiedStudents))
      ensures Valid()
      ensures users == userService && this.context == context && this.configuration == configuration
    {
      users := userService;
      this.context := context;
      this.configuration := configuration;
    }

    /** The accounts and the verification links, as values. */
    ghost function State(): Directory
      reads this, users, users.accounts.Values, context
    {
      Directory(users.Store(), context.verifiedStudents)
    }

    ghost predicate Valid()
      reads this, users, users.accounts.Values, context
    {
      users.Valid() && LinksOk(State())
    }

    /** `POST api/auth/register`. `newId` is the id the store assigns. */
    method Register(input: RegisterInput, newId: Guid) returns (r: RegisterResult)
      requires Valid()
      modifies users, users.accounts.Values, context
      ensures Valid()
      ensures Registration(State(), r) == Workflow.Register(old(State()), input, newId)
      ensures r.Registered? ==> users.Hashes() == old(users.Hashes())[input.email := users.hash(input.password)]
      ensures r.Rejected? ==> users.Hashes() == old(users.Hashes())
      ensures forall e, p | old(users.Authenticated(e, p)).Some? :: users.Authenticated(e, p).Some?
      ensures r.Registered? ==>
        (users.Authenticated(input.email, input.password).Some? <==> users.verify(input.password, users.hash(input.password)))
      ensures forall o | o in users.accounts.Values :: o in old(users.accounts.Values) || fresh(o)
    {
      var role := FromSelector(input.role);
      if role.None? {
        return Rejected(InvalidRole);
      }
      var user := NewUser(role.value, input);
      assert users.Store() == old(users.Store());
      users.HashesKept();
      r := CreateAccount(user, input, newId);
      WithinAdded(users.accounts.Values, old(users.accounts.Values), user);
      ghost var hashes := old(users.Hashes());
      if r.Registered? {
        assert input.email !in hashes;
        KeptUnderNewKey(hashes, input.email, users.hash(input.password));
      }
      forall e, p | old(users.Authenticated(e, p)).Some? ensures users.Authenticated(e, p).Some? {
        assert e in hashes && users.verify(p, hashes[e]);
      }
    }

    /** `Register` once the account object is built: store it, then run the
        parent-to-student branch. */
    method CreateAccount(user: Account, input: RegisterInput, newId: Guid) returns (r: RegisterResult)
      requires Valid() && user.Valid() && user !in users.accounts.Values
      requires FromSelector(input.role).Some?
      requires user.View() == AccountView(user.variant, Empty, input.name, input.email, user.variant, None)
      requires FromSelector(input.role).value == user.variant
      modifies users, users.accounts.Values, context, user
      ensures Valid()
      ensures Registration(State(), r) == Workflow.Register(old(State()), input, newId)
      ensures r.Registered? ==> users.Hashes() == old(users.Hashes())[input.email := users.hash(input.password)]
      ensures r.Rejected? ==> users.Hashes() == old(users.Hashes())
      ensures users.accounts.Values <= old(users.accounts.Values) + {user}
    {
      ghost var before := State();
      ghost var objects := users.accounts.Values;
      ghost var parent := AccountView(user.variant, newId, input.name, input.email, user.variant, None);
      var created := users.RegisterAsync(user, input.password, newId);
      if !created {
        assert State() == before;
        return Rejected(RegistrationFailed);
      }
      ghost var stored := Directory(before.accounts[input.email := parent], before.links);
      assert State() == stored;
      assert users.accounts.Values == objects + {user};
      label stored:
      VerifyChild(user, input.studentEmail);
      users.HashesKept@stored();
      assert State() == Workflow.VerifyChild(stored, parent, input.studentEmail);
      RegisterKeepsInvariant(before, input, newId);
      r := Registered;
    }

    /** The account of the chosen variant with the request's name, email and role. */
    method NewUser(variant: Role, input: RegisterInput) returns (user: Account)
      requires Code(variant) == input.role
      ensures fresh(user) && user.Valid()
      ensures user.View() == AccountView(variant, Empty, input.name, input.email, variant, None)
    {
      user := new Account(variant);
      user.name := input.name;
      user.email := input.email;
      // `(UserRole)input.Role` names the member whose code is the selector
      user.role := variant;
    }

    /** The parent-to-student branch of `Register`, run once the new account is stored. */
    method VerifyChild(user: Account, studentEmail: Option<string>)
      requires users.Valid() && user in users.accounts.Values
      modifies users.accounts.Values, context
      ensures users.accounts == old(users.accounts)
      ensures State() == Workflow.VerifyChild(old(State()), old(user.View()), studentEmail)
      ensures forall e | e in users.accounts :: users.accounts[e].passwordHash == old(users.accounts[e].passwordHash)
    {
      if user.variant == Parent && !IsNullOrWhiteSpace(studentEmail) {
        var child := users.FindByEmail(studentEmail.value);
        if child != null && child.variant == Student {
          Link(user, child, studentEmail.value);
        }
      }
    }

    /** The parent vouches for the student it found: the student's parent
        reference and one new `VerifiedStudent` row. */
    method Link(parent: Account, student: Account, ghost c: string)
      requires users.Valid() && c in users.accounts && users.accounts[c] == student
      modifies student, context
      ensures users.accounts == old(users.accounts)
      ensures State() == Workflow.Link(old(State()), old(parent.id), c)
      ensures student.passwordHash == old(student.passwordHash)
    {
      ghost var before := users.Store();
      forall e | e in users.accounts && e != c ensures users.accounts[e] != student {
        users.DistinctObjects(e, c);
      }
      student.verifiedByParentId := Some(parent.id);
      assert users.Store() == before[c := before[c].(verifiedByParentId := Some(old(parent.id)))];
      context.AddVerifiedStudent(VerifiedStudent(parent.id, student.id));
    }

    /** `POST api/auth/login`. */
    method Login(email: string, password: string) returns (r: LoginResult)
      ensures r == Workflow.Login(users.Authenticated(email, password), configuration)
    {
      var user := users.Authenticate(email, password);
      if user == null {
        return Unauthorized(InvalidCredentials);
      }
      var claims := Claims(user.name, user.role, user.id);
      var token := Issue(claims, configuration);
      var verifiedByParentId: Option<Guid> := None;
      if user.variant == Student {
        verifiedByParentId := user.verifiedByParentId;
      }
      r := LoggedIn(AuthResponse(token, user.id, user.name, user.email, Roles.Name(user.role), verifiedByParentId));
    }
  }
}
