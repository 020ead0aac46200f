/**
 * The registration form: three ordered checks, the `userData` object built
 * from the fields, the call to `register`, and navigation by user type.
 */
module RegisterPage {
  import opened Wrappers
  import opened Text
  import opened Records
  import opened AuthContext
  import opened App

  datatype RegisterForm = RegisterForm(
    userType: string, name: string, email: string, password: string, confirmPassword: string,
    bloodType: string, age: string, gender: string, phone: string, address: string,
    medicalCondition: string, hospital: string)

  /** The form's initial state: a donor registration with every field blank. */
  const InitialForm: RegisterForm := RegisterForm("donor", "", "", "", "", "", "", "", "", "", "", "")

  /** The first failing check, in the order the page makes them. */
  function Validate(f: RegisterForm): Option<string>
  {
    if f.name == "" || f.email == "" || f.password == "" || f.confirmPassword == "" then
      Some("Please fill all required fields")
    else if f.password != f.confirmPassword then
      Some("Passwords do not match")
    else if f.userType == "donor" && f.bloodType == "" then
      Some("Blood type is required for donors")
    else None
  }

  /**
   * A missing field is reported before a password mismatch, and a mismatch
   * before a donor's missing blood type; the form passes exactly when all
   * required fields are filled, the passwords agree and a donor gave a blood type.
   */
  lemma ValidateSpec(f: RegisterForm)
    ensures (f.name == "" || f.email == "" || f.password == "" || f.confirmPassword == "") ==>
      Validate(f) == Some("Please fill all required fields")
    ensures (f.name != "" && f.email != "" && f.password != "" && f.confirmPassword != "" &&
             f.password != f.confirmPassword) ==> Validate(f) == Some("Passwords do not match")
    ensures (f.name != "" && f.email != "" && f.password != "" && f.password == f.confirmPassword &&
             f.userType == "donor" && f.bloodType == "") ==> Validate(f) == Some("Blood type is required for donors")
    ensures Validate(f).None? <==>
      f.name != "" && f.email != "" && f.password != "" && f.password == f.confirmPassword &&
      (f.userType == "donor" ==> f.bloodType != "")
  {
  }

  /** `parseInt(age, 10) || 0`: the parsed age, or 0 when the text is not a number. */
  function AgeValue(age: string): (r: int)
    ensures ParseInt(age).None? ==> r == 0
    ensures ParseInt(age).Some? ==> r == ParseInt(age).value
  {
    match ParseInt(age)
    case None => 0
    case Some(v) => if v != 0 then v else 0
  }

  /** Any number typed as digits comes back as that number. */
  lemma AgeValueOfNumber(n: int)
    ensures AgeValue(IntToString(n)) == n
  {
    ParseIntToString(n, []);
    assert IntToString(n) + [] == IntToString(n);
  }

  /** Blank or non-numeric text gives 0. */
  lemma AgeValueNotNumber()
    ensures AgeValue("") == 0 && AgeValue("abc") == 0
  {
    assert TrimStart("abc") == "abc";
    assert DigitPrefix("abc") == [];
  }

  /** Text after the digits is ignored: "42 years" gives 42. */
  lemma AgeValueIgnoresTail()
    ensures AgeValue("42 years") == 42
  {
    assert NatToString(42) == NatToString(4) + [DigitChar(2)];
    assert IntToString(42) + " years" == "42 years";
    ParseIntToString(42, " years");
  }

  /** The `userData` object passed to `register`. */
  function UserData(f: RegisterForm): Registration
  {
    var base := Profile(f.name, f.email, None, Some(AgeValue(f.age)), Some(f.gender), Some(f.phone),
                        Some(f.address), None, None);
    if f.userType == "donor" then
      Registration(base.(bloodType := Some(f.bloodType)), f.password)
    else
      Registration(base.(medicalCondition := Some(f.medicalCondition), hospital := Some(f.hospital)), f.password)
  }

  /**
   * A donor's data carries the blood type and no medical fields; anyone
   * else's carries the medical condition and hospital and no blood type.
   * Name, e-mail, password and the contact fields are always passed on.
   */
  lemma UserDataSpec(f: RegisterForm)
    ensures var d := UserData(f);
      d.password == f.password && d.profile.name == f.name && d.profile.email == f.email &&
      d.profile.age == Some(AgeValue(f.age)) && d.profile.gender == Some(f.gender) &&
      d.profile.phone == Some(f.phone) && d.profile.address == Some(f.address)
    ensures f.userType == "donor" ==> var p := UserData(f).profile;
      p.bloodType == Some(f.bloodType) && p.medicalCondition.None? && p.hospital.None?
    ensures f.userType != "donor" ==> var p := UserData(f).profile;
      p.bloodType.None? && p.medicalCondition == Some(f.medicalCondition) && p.hospital == Some(f.hospital)
  {
  }

  /** Where a successful registration goes. */
  function PathAfterRegister(userType: string): (path: string)
    ensures path == "/donor" <==> userType == "donor"
    ensures path == "/donor" || path == "/receiver"
  {
    if userType == "donor" then "/donor" else "/receiver"
  }

  /**
   * The page offers the user types "donor" and "receiver". For either, the
   * dashboard a new user is sent to is a route the guard admits for the
   * identity just signed in, whose role is the chosen user type.
   */
  lemma RegisterLandsOnAdmittedRoute(u: Identity, userType: string)
    requires userType == "donor" || userType == "receiver"
    requires u.role == userType
    ensures RouteAt(PathAfterRegister(userType)).Some?
    ensures Admits(Some(u), RouteAt(PathAfterRegister(userType)).value)
  {
    var target := PathAfterRegister(userType);
    assert target == "/" + u.role;
    var k := if userType == "donor" then 3 else 8;
    assert AppRoutes[k].path == target;
    PrefixAdmits(u, RouteAt(target).value);
  }

  /**
   * `handleSubmit`. `register` is called only when the checks pass; it
   * always succeeds, so its failure branch is not modelled.
   */
  method HandleSubmit(auth: AuthStore, form: RegisterForm) returns (out: FormOutcome)
    modifies auth
    ensures Validate(form).Some? ==>
      out == FormOutcome(Validate(form).value, None) &&
      auth.users == old(auth.users) && auth.currentUser == old(auth.currentUser)
    ensures Validate(form).None? ==>
      out == FormOutcome("", Some(PathAfterRegister(form.userType))) &&
      auth.users == old(auth.users) + [NewUser(old(auth.users), UserData(form), form.userType)] &&
      auth.currentUser == Some(WithoutPassword(NewUser(old(auth.users), UserData(form), form.userType)))
  {
    var error := Validate(form);
    if error.Some? {
      return FormOutcome(error.value, None);
    }
    var result := auth.Register(UserData(form), form.userType);
    out := FormOutcome("", Some(PathAfterRegister(form.userType)));
  }

  /** Right after a registration, the same e-mail and password log in. */
  lemma RegisteredCanLogIn(users: seq<User>, form: RegisterForm)
    requires Validate(form).None?
    ensures LoginOutcome(users + [NewUser(users, UserData(form), form.userType)], form.email, form.password).Success?
  {
    LoginAfterRegister(users, UserData(form), form.userType);
  }
}
