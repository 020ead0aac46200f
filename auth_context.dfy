/**
 * The session store: the list of known users and the user currently
 * signed in. Log-in looks a user up by e-mail (ignoring case) and exact
 * password; registering appends a user and signs them in.
 */
module AuthContext {
  import opened Wrappers
  import opened Text
  import opened Seqs
  import opened Records

  function NoProfile(name: string, email: string): Profile
  {
    Profile(name, email, None, None, None, None, None, None, None)
  }

  /** The three demonstration accounts, one per role, all with password "password". */
  const SeedUsers: seq<User> := [
    User(1, NoProfile("John Donor", "donor@example.com").(bloodType := Some("O+")), "password", "donor"),
    User(2, NoProfile("Sarah Receiver", "receiver@example.com"), "password", "receiver"),
    User(3, NoProfile("Admin User", "admin@example.com"), "password", "admin")
  ]

  lemma SeedUsersShape()
    ensures |SeedUsers| == 3
    ensures SequentialIds(SeedUsers, (u: User) => u.id)
    ensures SeedUsers[0].role == "donor" && SeedUsers[1].role == "receiver" && SeedUsers[2].role == "admin"
    ensures forall i :: 0 <= i < |SeedUsers| ==> SeedUsers[i].password == "password"
  {
  }

  /** What `login` and `register` return. */
  datatype AuthResult = Success(user: Identity) | Failure(message: string)

  /** The test `login` applies to each stored user. */
  predicate Matches(u: User, email: string, password: string)
  {
    Lower(u.profile.email) == Lower(email) && u.password == password
  }

  /** `mockUsers.find(...)`, as the index of the user found. */
  function FindUser(users: seq<User>, email: string, password: string): (r: Option<nat>)
    ensures r.Some? ==> r.value < |users| && Matches(users[r.value], email, password)
    ensures r.Some? ==> forall k :: 0 <= k < r.value ==> !Matches(users[k], email, password)
    ensures r.None? <==> forall k :: 0 <= k < |users| ==> !Matches(users[k], email, password)
  {
    FindIndex(users, (u: User) => Matches(u, email, password))
  }

  /** The value `login(email, password)` returns. */
  function LoginOutcome(users: seq<User>, email: string, password: string): AuthResult
  {
    match FindUser(users, email, password)
    case Some(i) => Success(WithoutPassword(users[i]))
    case None => Failure("Invalid email or password")
  }

  /**
   * Log-in succeeds exactly when some user matches, and then yields the
   * first matching user without the password; every failure, whether the
   * e-mail is unknown or the password wrong, carries the same message.
   */
  lemma LoginOutcomeSpec(users: seq<User>, email: string, password: string)
    ensures LoginOutcome(users, email, password).Success? <==>
      exists i :: 0 <= i < |users| && Matches(users[i], email, password)
    ensures forall i :: 0 <= i < |users| && Matches(users[i], email, password) &&
                        (forall k :: 0 <= k < i ==> !Matches(users[k], email, password)) ==>
      LoginOutcome(users, email, password) == Success(WithoutPassword(users[i]))
    ensures LoginOutcome(users, email, password).Failure? ==>
      LoginOutcome(users, email, password).message == "Invalid email or password"
  {
    forall i | 0 <= i < |users| && Matches(users[i], email, password) &&
               (forall k :: 0 <= k < i ==> !Matches(users[k], email, password))
      ensures FindUser(users, email, password) == Some(i)
    {
      FindIndexIs(users, (u: User) => Matches(u, email, password), i);
    }
  }

  /** The typed e-mail's letter case makes no difference. */
  lemma LoginIgnoresEmailCase(users: seq<User>, email1: string, email2: string, password: string)
    requires Lower(email1) == Lower(email2)
    ensures LoginOutcome(users, email1, password) == LoginOutcome(users, email2, password)
  {
    FindIndexSameTest(users, (u: User) => Matches(u, email1, password), (u: User) => Matches(u, email2, password));
  }

  /** The password is compared exactly: a password differing from every stored one fails. */
  lemma LoginNeedsExactPassword(users: seq<User>, email: string, password: string)
    requires forall i :: 0 <= i < |users| ==> users[i].password != password
    ensures LoginOutcome(users, email, password) == Failure("Invalid email or password")
  {
  }

  /** Each demonstration account's credentials sign in as the seed user of that role. */
  lemma DemoCredentials()
    ensures LoginOutcome(SeedUsers, "donor@example.com", "password") == Success(WithoutPassword(SeedUsers[0]))
    ensures LoginOutcome(SeedUsers, "receiver@example.com", "password") == Success(WithoutPassword(SeedUsers[1]))
    ensures LoginOutcome(SeedUsers, "admin@example.com", "password") == Success(WithoutPassword(SeedUsers[2]))
    ensures LoginOutcome(SeedUsers, "ADMIN@example.com", "password").Success?
  {
    DonorDemo();
    ReceiverDemo();
    AdminDemo();
    LoginIgnoresEmailCase(SeedUsers, "ADMIN@example.com", "admin@example.com", "password");
  }

  lemma DonorDemo()
    ensures LoginOutcome(SeedUsers, "donor@example.com", "password") == Success(WithoutPassword(SeedUsers[0]))
  {
    assert Matches(SeedUsers[0], "donor@example.com", "password");
  }

  lemma ReceiverDemo()
    ensures LoginOutcome(SeedUsers, "receiver@example.com", "password") == Success(WithoutPassword(SeedUsers[1]))
  {
    assert Lower("donor@example.com")[0] != Lower("receiver@example.com")[0];
    assert !Matches(SeedUsers[0], "receiver@example.com", "password");
    assert Matches(SeedUsers[1], "receiver@example.com", "password");
  }

  lemma AdminDemo()
    ensures LoginOutcome(SeedUsers, "admin@example.com", "password") == Success(WithoutPassword(SeedUsers[2]))
  {
    assert Lower("donor@example.com")[0] != Lower("admin@example.com")[0];
    assert Lower("receiver@example.com")[0] != Lower("admin@example.com")[0];
    assert !Matches(SeedUsers[0], "admin@example.com", "password");
    assert !Matches(SeedUsers[1], "admin@example.com", "password");
    assert Matches(SeedUsers[2], "admin@example.com", "password");
  }

  /** `{ id: length + 1, ...userData, role }`. */
  function NewUser(users: seq<User>, userData: Registration, role: string): (u: User)
    ensures u.id == |users| + 1 && u.role == role
    ensures u.profile == userData.profile && u.password == userData.password
  {
    User(|users| + 1, userData.profile, userData.password, role)
  }

  /**
   * No e-mail check is made on registration, so a user already matching the
   * credentials keeps being the one log-in finds; otherwise the new user is.
   */
  lemma LoginAfterRegister(users: seq<User>, userData: Registration, role: string)
    ensures var all := users + [NewUser(users, userData, role)];
      var found := LoginOutcome(all, userData.profile.email, userData.password);
      found.Success? &&
      (FindUser(users, userData.profile.email, userData.password).None? ==>
         found == Success(WithoutPassword(NewUser(users, userData, role)))) &&
      (FindUser(users, userData.profile.email, userData.password).Some? ==>
         found == LoginOutcome(users, userData.profile.email, userData.password))
  {
    var email := userData.profile.email;
    var password := userData.password;
    var all := users + [NewUser(users, userData, role)];
    var p := (u: User) => Matches(u, email, password);
    assert Matches(all[|users|], email, password);
    match FindUser(users, email, password)
    case None =>
      FindIndexIs(all, p, |users|);
    case Some(i) =>
      FindIndexAppend(users, [NewUser(users, userData, role)], p);
  }

  /** Appending a user keeps the list numbered 1..n and gives the newcomer an unused id. */
  lemma NewUserFresh(users: seq<User>, userData: Registration, role: string)
    requires SequentialIds(users, (u: User) => u.id)
    ensures SequentialIds(users + [NewUser(users, userData, role)], (u: User) => u.id)
    ensures forall i :: 0 <= i < |users| ==> users[i].id != NewUser(users, userData, role).id
  {
    AppendSequential(users, NewUser(users, userData, role), (u: User) => u.id);
  }

  class AuthStore {
    /** The user list; it keeps each user's password. */
    var users: seq<User>
    /** The signed-in user, without the password; `None` is `null`. */
    var currentUser: Option<Identity>

    /** The provider as mounted with nothing in browser storage: nobody is signed in. */
    constructor ()
      ensures users == SeedUsers && currentUser == None
    {
      users := SeedUsers;
      currentUser := None;
    }

    /** `login(email, password)`. */
    method Login(email: string, password: string) returns (r: AuthResult)
      modifies this
      ensures r == LoginOutcome(old(users), email, password)
      ensures users == old(users)
      ensures currentUser == if r.Success? then Some(r.user) else old(currentUser)
    {
      var found := FindUser(users, email, password);
      if found.Some? {
        var userData := WithoutPassword(users[found.value]);
        currentUser := Some(userData);
        return Success(userData);
      } else {
        return Failure("Invalid email or password");
      }
    }

    /** `register(userData, role)`: always succeeds and signs the new user in. */
    method Register(userData: Registration, role: string) returns (r: AuthResult)
      modifies this
      ensures users == old(users) + [NewUser(old(users), userData, role)]
      ensures r == Success(WithoutPassword(NewUser(old(users), userData, role)))
      ensures currentUser == Some(r.user)
    {
      var newUser := NewUser(users, userData, role);
      users := users + [newUser];
      var loginData := WithoutPassword(newUser);
      currentUser := Some(loginData);
      return Success(loginData);
    }

    /** `logout()`: nobody is signed in afterwards. */
    method Logout()
      modifies this
      ensures currentUser == None && users == old(users)
    {
      currentUser := None;
    }
  }
}
