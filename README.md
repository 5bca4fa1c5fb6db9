# TalentLink authentication core in Dafny

This project models the account logic of TalentLink's `AuthController`. It covers two operations.

- **Register.** An integer role selector picks one of four account variants: Student, Senior, Parent or Admin. Any other selector is rejected with "Invalid role" before anything is stored. The request's name, email and role are copied into the new account, and the user service stores it. If the new account is a Parent and the request names a non-blank child email that belongs to a Student, two things happen:
  - that Student's `VerifiedByParentId` becomes the parent's id;
  - exactly one `VerifiedStudent { ParentId, StudentId }` row is recorded.
- **Login.** Failed authentication gives the single result `Unauthorized("Invalid credentials")`. Successful authentication gives:
  - a token carrying three claims: name, role name and id text;
  - an `AuthResponseDto` copied from the account, whose `VerifiedByParentId` is filled only for Students.

The model has two layers:

- **Pure specification.** Module `Workflow` defines `Register` and `Login` as functions over the store. The store is emails mapped to account records, plus the sequence of verification links.
- **Imperative model.** Module `Controller` holds class `AuthController`. Its methods work like the source: they construct an `Account` object, set its fields, call the user service, change the found Student object in place, and append to the database context's link sequence. Each method is proved equal to the matching `Workflow` function.

The collaborators are in module `Services`:

- `UserService` is the account store. It is a map from email to the same `Account` objects it hands out.
- `TalentLinkDb` holds the `VerifiedStudents` sequence.

Other modules:

- `Roles`: the selector switch and `UserRole.ToString()`.
- `Text`: `string.IsNullOrWhiteSpace`, with the .NET `char.IsWhiteSpace` table.
- `Guids`: account ids as 128-bit values, and their default "D" text form.
- `Tokens`: the claims and the token value.
- `Domain`: the account entity, its value view and the store invariants.

Assumptions about code that is not part of this model:

- `IUserService`, the `User` subclasses and the `UserRole` enum are not part of this model.
- The `UserRole` enum is taken to have the members Student, Senior, Parent, Admin, numbered 0 to 3. Its `ToString()` is taken to give those names.
- `RegisterAsync` is taken to refuse an account whose email or id is already in use. The model reports that refusal as `Rejected(RegistrationFailed)`, because the exception would end the request.
- `RegisterAsync` is taken to assign the id on the object it is given and to store that same object. The controller discards the returned `createdUser` (line 47) and reads `parent.Id` from the object it passed in (lines 55 and 60). The link's `ParentId` is the new id only under this assumption.
- `RegisterAsync` is taken to store the hash of the given password on the account. `UserService.Hashes` exposes the stored hashes, which are not part of the account's value view.
- `AuthenticateAsync` is taken to return the account stored under the email when the password verifies against its hash. The hash and verify functions are opaque parameters of the service.
- The controller never chooses the id. The user service is taken to assign a fresh one, and that id is a parameter (`newId`) of `Register`.

The model follows the code in three places where a looser reading is possible:

- A child email made only of white space counts as absent, as `IsNullOrWhiteSpace` says.
- `VerifiedByParentId` in the login response is read from the Student's own field, not derived from the links.
- A second Parent naming the same Student overwrites that Student's parent reference. The earlier link stays, and nothing prevents this.

## Model

| member | source | states |
|---|---|---|
| Roles.Code | TalentLink.API/Controllers/AuthController.cs:45 | the `UserRole` number of a role, which the `(UserRole)input.Role` cast turns back into that role; always in 0..3 (that the switch maps each code back to its role is `Roles.SelectorOfCode`) |
| Roles.FromSelector | TalentLink.API/Controllers/AuthController.cs:34-41 | a variant exactly for selectors 0..3, and the variant's enum code equals the selector; every other selector is the "Invalid role" case |
| Roles.SelectorOfCode | TalentLink.API/Controllers/AuthController.cs:34-45 | the switch picks a role exactly when the selector is that role's `UserRole` code |
| Roles.Name | TalentLink.API/Controllers/AuthController.cs:88 | `UserRole.ToString()` is a non-empty name |
| Roles.NameInjective | TalentLink.API/Controllers/AuthController.cs:88 | distinct roles have distinct names, so the role claim determines the role |
| Text.IsWhiteSpace | TalentLink.API/Controllers/AuthController.cs:50 | `char.IsWhiteSpace`: among ASCII characters exactly space and U+0009..U+000D; no accepted character lies above U+3000 |
| Text.AllWhiteSpace | TalentLink.API/Controllers/AuthController.cs:50 | true exactly when every character is .NET white space |
| Text.IsNullOrWhiteSpace | TalentLink.API/Controllers/AuthController.cs:50 | true exactly for null or for a string made only of white space; the empty string counts as blank |
| Guids.ToString | TalentLink.API/Controllers/AuthController.cs:89 | `Guid.ToString()` is 36 characters with '-' at positions 8, 13, 18 and 23 |
| Guids.HexRoundTrip | TalentLink.API/Controllers/AuthController.cs:89 | the hex digits written for a number read back as that number |
| Guids.ToStringRoundTrip | TalentLink.API/Controllers/AuthController.cs:89 | the id text, without its separators, reads back as the id |
| Guids.ToStringInjective | TalentLink.API/Controllers/AuthController.cs:89 | distinct ids have distinct texts |
| Tokens.Claims | TalentLink.API/Controllers/AuthController.cs:85-90 | three claims: Name is the user's name, Role is the role name, NameIdentifier is the id text |
| Tokens.ClaimsIdentify | TalentLink.API/Controllers/AuthController.cs:85-90 | equal claim lists come from the same name, role and id |
| Tokens.Issue | TalentLink.API/Controllers/AuthController.cs:83-99 | the issued token carries exactly the given claims and the configured issuer and audience |
| Domain.Account.constructor | TalentLink.API/Controllers/AuthController.cs:36-39 | a new entity of the chosen variant, with an empty id and no parent reference |
| Workflow.Register | TalentLink.API/Controllers/AuthController.cs:32-69 | "Invalid role" exactly for selectors outside 0..3; a store refusal exactly when the email or id is taken; either rejection leaves store and links unchanged; on success the new account has the input name and email, the new id, and a variant and role whose code is the selector; existing accounts differ at most in their parent reference |
| Workflow.VerifyChild | TalentLink.API/Controllers/AuthController.cs:50-67 | no account is added or changes except in its parent reference; the links are unchanged or gain one entry whose parent is the new account |
| Workflow.Link | TalentLink.API/Controllers/AuthController.cs:55-65 | the Student under the found email gets the parent's id as its parent reference and nothing else of it changes; no other account changes and no account is added; exactly one link {parent id, student id} is appended |
| Workflow.ParentLinksStudent | TalentLink.API/Controllers/AuthController.cs:50-65 | a registered Parent naming a Student's email appends exactly the link {parent id, student id}, sets that Student's parent reference to the parent's id, and leaves every other account unchanged |
| Workflow.NoLinkOtherwise | TalentLink.API/Controllers/AuthController.cs:50-53 | when the account is not a Parent, or the child email is blank, or it names no Student, no link is added, no existing account changes, and an accepted registration still succeeds |
| Workflow.RegisterKeepsInvariant | TalentLink.API/Controllers/AuthController.cs:43-65 | emails stay keys of their own accounts, ids stay unique, and only Students hold a parent reference; every link still joins an existing Parent to an existing Student |
| Workflow.Login | TalentLink.API/Controllers/AuthController.cs:76-117 | unauthorized exactly when authentication found no account, and then always the single "Invalid credentials" result; otherwise the token claims are the account's name, role name and id text under the configured issuer and audience, the response copies the id, name, email and role name, and `VerifiedByParentId` is the Student's field for a Student and null for every other variant; the response agrees with its token's claims |
| Workflow.TokenIdentifiesAccount | TalentLink.API/Controllers/AuthController.cs:85-99 | two logins that produce the same token belong to accounts with the same id, name and role |
| Workflow.StudentThenParent | TalentLink.API/Controllers/AuthController.cs:32-117 | register a Student, then a Parent naming that Student's email: exactly one link {parent id, student id} is added, and a successful login as the Student reports the parent's id, provided the store keeps the changed Student (see "Left out") |
| Services.UserService.RegisterAsync | TalentLink.API/Controllers/AuthController.cs:47 | the service accepts exactly when email and id are unused; on acceptance the given object is stored under its email with the new id and the password's hash, and no other account or hash changes; otherwise nothing changes |
| Services.UserService.FindByEmail | TalentLink.API/Controllers/AuthController.cs:52 | the stored object for that email, or null |
| Services.UserService.Authenticated | TalentLink.API/Controllers/AuthController.cs:76 | authentication succeeds exactly when the email is stored and the password verifies against its stored hash, and then yields the account stored under that email |
| Services.UserService.Authenticate | TalentLink.API/Controllers/AuthController.cs:76 | null exactly when authentication fails; otherwise a stored object whose view is the authenticated account |
| Services.TalentLinkDb.AddVerifiedStudent | TalentLink.API/Controllers/AuthController.cs:64-65 | the link is appended and nothing else changes |
| Controller.AuthController.constructor | TalentLink.API/Controllers/AuthController.cs:24-29 | holds the given user service, configuration and context; given a valid store and links, the controller starts valid |
| Controller.AuthController.Register | TalentLink.API/Controllers/AuthController.cs:32-70 | keeps the store and link invariants; the new store, links and result are those of `Workflow.Register` on the old state; only the new account's password hash is added, and no other hash changes; every email and password that authenticated before still authenticates; on success the new user authenticates with the registered password exactly when `verify` accepts that password against its hash; every account object in the store afterwards was there before or is newly allocated |
| Controller.AuthController.CreateAccount | TalentLink.API/Controllers/AuthController.cs:47-69 | for a built account: the new store, links and result are those of `Workflow.Register`, and the hashes change only by the new account's |
| Controller.AuthController.NewUser | TalentLink.API/Controllers/AuthController.cs:34-45 | a fresh account of the chosen variant, holding the request's name and email and the selector's role |
| Controller.AuthController.VerifyChild | TalentLink.API/Controllers/AuthController.cs:50-67 | the store keeps its objects and every password hash; the new state is `Workflow.VerifyChild` of the old one |
| Controller.AuthController.Link | TalentLink.API/Controllers/AuthController.cs:55-65 | the found Student's parent reference becomes the parent's id and its password hash is kept, and exactly one link {parent id, student id} is appended |
| Controller.AuthController.Login | TalentLink.API/Controllers/AuthController.cs:74-118 | the result is `Workflow.Login` of the account the user service authenticates, under the configured issuer and audience |

## Left out

- JWT creation, serialisation and HMAC-SHA256 signing (lines 80-100) are library code. The token is a value holding the claims, issuer and audience, and the response carries that value instead of its serialised string.
- The token expiry (line 91) depends on the wall clock, floating point and string parsing. It is not modelled, and the `Jwt:Key` and `Jwt:ExpiresInMinutes` entries are carried but unused. Configuration entries are plain strings, so a missing entry (null) is not modelled.
- EF Core persistence (lines 64-65): `AddAsync` followed by `SaveChangesAsync` is one append to an in-memory sequence. The Student's parent reference is changed on the object that the store holds, and later reads of the store see that object. Whether the real change reaches the database depends on change tracking, which is not part of this model.
- The internals of `IUserService` are not part of this model. Password hashing is an opaque pair of functions, and the refusal rule of `RegisterAsync` is assumed.
- Exceptions are modelled only as the `Rejected` results. The thrown `ArgumentException` and HTTP status codes are not modelled.
- Routing attributes, `IActionResult` types and `async`/`await` are plumbing with no logic.
- Concurrent requests are not modelled. Each method runs to completion on its own.
- How the user service picks a new id is not part of this model. The id it assigns is a parameter.
- Names and emails are non-null strings in the model. In the source a null `Name` would make `new Claim(ClaimTypes.Name, user.Name)` (line 87) throw, and a null email would fail the lookups. `Workflow.Login` always gives `LoggedIn` for an authenticated account instead.
- Workflow.StudentThenParent: the later login reads the Student as the Parent's registration left it in the store. It holds only if `SaveChangesAsync` (line 65) also saves the tracked change to the Student's `VerifiedByParentId` (line 55), which this model assumes and does not prove.
