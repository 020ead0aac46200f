/** The log-in form: a presence check, the call to `login`, and navigation by role. */
module LoginPage {
  import opened Wrappers
  import opened Records
  import opened AuthContext
  import opened App

  /** The check made before `login` is called. */
  function Validate(email: string, password: string): (r: Option<string>)
    ensures r.Some? <==> email == "" || password == ""
    ensures r.Some? ==> r.value == "Please enter both email and password"
  {
    if email == "" || password == "" then Some("Please enter both email and password") else None
  }

  /** What the page does with the result of `login`. */
  function AfterLogin(result: AuthResult): (r: FormOutcome)
    ensures result.Success? ==> r == FormOutcome("", RoleHome(result.user.role))
    ensures result.Failure? ==> r == FormOutcome(result.message, None)
  {
    match result
    case Success(user) =>
      if user.role == "donor" then FormOutcome("", Some("/donor"))
      else if user.role == "receiver" then FormOutcome("", Some("/receiver"))
      else if user.role == "admin" then FormOutcome("", Some("/admin"))
      else FormOutcome("", None)
    case Failure(message) => FormOutcome(message, None)
  }

  /** The whole handler, as a function of the stored users and the typed credentials. */
  function SubmitOutcome(users: seq<User>, email: string, password: string): FormOutcome
  {
    match Validate(email, password)
    case Some(error) => FormOutcome(error, None)
    case None => AfterLogin(LoginOutcome(users, email, password))
  }

  /**
   * Empty fields give the presence error; a failed log-in shows the message
   * `login` returned; a successful one goes to the role's dashboard, which
   * the guard admits for the user just signed in, or nowhere for an unknown role.
   */
  lemma SubmitOutcomeSpec(users: seq<User>, email: string, password: string)
    ensures email == "" || password == "" ==>
      SubmitOutcome(users, email, password) == FormOutcome("Please enter both email and password", None)
    ensures email != "" && password != "" && LoginOutcome(users, email, password).Failure? ==>
      SubmitOutcome(users, email, password) == FormOutcome("Invalid email or password", None)
    ensures email != "" && password != "" && LoginOutcome(users, email, password).Success? ==>
      var u := LoginOutcome(users, email, password).user;
      SubmitOutcome(users, email, password).error == "" &&
      SubmitOutcome(users, email, password).navigateTo == RoleHome(u.role) &&
      (u.role in Roles ==>
         RouteAt(RoleHome(u.role).value).Some? && Admits(Some(u), RouteAt(RoleHome(u.role).value).value))
  {
    LoginOutcomeSpec(users, email, password);
    if email != "" && password != "" && LoginOutcome(users, email, password).Success? {
      var u := LoginOutcome(users, email, password).user;
      if u.role in Roles {
        var k := if u.role == "donor" then 3 else if u.role == "receiver" then 8 else 12;
        assert AppRoutes[k].path == RoleHome(u.role).value;
        PrefixAdmits(u, RouteAt(RoleHome(u.role).value).value);
      }
    }
  }

  /** The e-mail and password each demonstration button fills in. */
  const DemoButtons: seq<(string, string)> := [
    ("donor@example.com", "password"),
    ("receiver@example.com", "password"),
    ("admin@example.com", "password")
  ]

  /** Submitting a demonstration button's credentials signs in as that role and opens its dashboard. */
  lemma DemoButtonsNavigate()
    ensures SubmitOutcome(SeedUsers, DemoButtons[0].0, DemoButtons[0].1) == FormOutcome("", Some("/donor"))
    ensures SubmitOutcome(SeedUsers, DemoButtons[1].0, DemoButtons[1].1) == FormOutcome("", Some("/receiver"))
    ensures SubmitOutcome(SeedUsers, DemoButtons[2].0, DemoButtons[2].1) == FormOutcome("", Some("/admin"))
  {
    DemoCredentials();
  }

  /** `handleSubmit`: `login` is called only when both fields are filled in. */
  method HandleSubmit(auth: AuthStore, email: string, password: string) returns (out: FormOutcome)
    modifies auth
    ensures out == SubmitOutcome(old(auth.users), email, password)
    ensures auth.users == old(auth.users)
    ensures Validate(email, password).Some? ==> auth.currentUser == old(auth.currentUser)
    ensures Validate(email, password).None? ==>
      auth.currentUser == match LoginOutcome(old(auth.users), email, password)
                          case Success(u) => Some(u)
                          case Failure(_) => old(auth.currentUser)
  {
    var error := Validate(email, password);
    if error.Some? {
      return FormOutcome(error.value, None);
    }
    var result := auth.Login(email, password);
    out := AfterLogin(result);
  }
}
