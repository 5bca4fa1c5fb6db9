/** The collaborators the controller calls: the user service over the account
    store, and the database context holding the verification links. */
module Services {
  import opened Wrappers
  import opened Guids
  import opened Domain

  /** `IUserService`: accounts keyed by email, each held as the same object the
      service hands out, with the password hasher given at construction. */
  class UserService {
    const hash: string -> string
    const verify: (string, string) -> bool
    var accounts: map<string, Account>

    ghost function Store(): (s: map<string, AccountView>)
      reads this, accounts.Values
      ensures s.Keys == accounts.Keys
    {
      map e | e in accounts :: accounts[e].View()
    }

    /** The stored password hashes, by email; they are not part of the view. */
    ghost function Hashes(): (h: map<string, string>)
      reads this, accounts.Values
      ensures h.Keys == accounts.Keys
    {
      map e | e in accounts :: accounts[e].passwordHash
    }

    ghost predicate Valid()
      reads this, accounts.Values
    {
      StoreOk(Store())
    }

    constructor (hash: string -> string, verify: (string, string) -> bool)
      ensures Valid() && Store() == map[]
      ensures this.hash == hash && this.verify == verify
    {
      this.hash := hash;
      this.verify := verify;
      accounts := map[];
    }

    /** Different emails hold different objects. */
    lemma DistinctObjects(e1: string, e2: string)
      requires Valid() && e1 in accounts && e2 in accounts && e1 != e2
      ensures accounts[e1] != accounts[e2]
    {
      assert Store()[e1].email == e1 && Store()[e2].email == e2;
    }

    /** `RegisterAsync`: store the hashed password and accept the account under
        `newId`, unless its email or that id is already taken. */
    method RegisterAsync(user: Account, password: string, newId: Guid) returns (ok: bool)
      requires Valid() && user.Valid() && user !in accounts.Values
      modifies this, user
      ensures Valid()
      ensures ok == Accepts(old(Store()), old(user.email), newId)
      ensures ok ==> accounts.Values == old(accounts.Values) + {user}
      ensures ok ==> Store() == old(Store())[user.email := old(user.View()).(id := newId)]
      ensures ok ==> Hashes() == old(Hashes())[old(user.email) := hash(password)]
      ensures !ok ==> accounts == old(accounts) && Store() == old(Store()) && Hashes() == old(Hashes())
      ensures !ok ==> unchanged(user)
    {
      ok := user.email !in accounts && forall e | e in accounts :: accounts[e].id != newId;
      assert ok == Accepts(Store(), user.email, newId) by {
        forall e | e in accounts ensures Store()[e].id == accounts[e].id { }
      }
      if ok {
        ghost var before := Store();
        ghost var held := accounts;
        ghost var hashes := Hashes();
        forall e | e in held ensures held[e] != user {
          assert held[e] in held.Values;
        }
        user.id := newId;
        user.passwordHash := hash(password);
        accounts := accounts[user.email := user];
        forall e | e in held ensures accounts[e].View() == before[e] && accounts[e].passwordHash == hashes[e] { }
        assert Store() == before[user.email := user.View()];
        assert Hashes() == hashes[user.email := user.passwordHash];
        StoreOkAdd(before, user.View());
        ValuesOfAdded(held, user.email, user);
      }
    }

    /** Changing stored objects in place, but not their hashes, keeps the hashes. */
    twostate lemma HashesKept()
      requires accounts == old(accounts)
      requires forall e | e in accounts :: accounts[e].passwordHash == old(accounts[e].passwordHash)
      ensures Hashes() == old(Hashes())
    {
    }

    /** `FindByEmailAsync`. */
    method FindByEmail(email: string) returns (u: Account?)
      ensures u == (if email in accounts then accounts[email] else null)
    {
      u := if email in accounts then accounts[email] else null;
    }

    /** The account `AuthenticateAsync` yields: the one stored under the email,
        when the password verifies against its hash. */
    ghost function Authenticated(email: string, password: string): (r: Option<AccountView>)
      reads this, accounts.Values
      ensures r.Some? <==> email in Hashes() && verify(password, Hashes()[email])
      ensures r.Some? ==> email in Store() && r.value == Store()[email]
    {
      if email in accounts && verify(password, accounts[email].passwordHash)
      then Some(accounts[email].View()) else None
    }

    /** `AuthenticateAsync`: null, or the stored account object. */
    method Authenticate(email: string, password: string) returns (u: Account?)
      ensures u == null <==> Authenticated(email, password).None?
      ensures u != null ==> u in accounts.Values && Authenticated(email, password) == Some(u.View())
    {
      if email in accounts && verify(password, accounts[email].passwordHash) {
        u := accounts[email];
      } else {
        u := null;
      }
    }
  }

  /** Filing a value under a new key adds exactly that value to the map's values. */
  lemma ValuesOfAdded<K, V>(m: map<K, V>, k: K, v: V)
    requires k !in m
    ensures m[k := v].Values == m.Values + {v}
  {
    assert m[k := v][k] == v;
    forall o | o in m.Values ensures o in m[k := v].Values {
      var e :| e in m && m[e] == o;
      assert m[k := v][e] == o;
    }
    forall o | o in m[k := v].Values ensures o in m.Values || o == v {
      var e :| e in m[k := v] && m[k := v][e] == o;
      if e != k {
        assert m[e] == o;
      }
    }
  }

  /** `TalentLinkDbContext.VerifiedStudents`. */
  class TalentLinkDb {
    var verifiedStudents: seq<VerifiedStudent>

    constructor ()
      ensures verifiedStudents == []
    {
      verifiedStudents := [];
    }

    /** `VerifiedStudents.AddAsync` followed by `SaveChangesAsync`. */
    method AddVerifiedStudent(link: VerifiedStudent)
      modifies this
      ensures verifiedStudents == old(verifiedStudents) + [link]
    {
      verifiedStudents := verifiedStudents + [link];
    }
  }
}
