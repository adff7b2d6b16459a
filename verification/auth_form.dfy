/**
 * The sign-in page: the form's validation and routing decision on submit, the
 * role toggle, the login/signup switch, and the two demo buttons.
 */
module AuthForm {
  import opened Base
  import opened Types
  import Session

  datatype Mode = LoginMode | SignupMode

  datatype Form = Form(role: Role, mode: Mode, email: string, password: string, name: string)

  /** What a submission leads to: an error toast and no call, or a page to navigate to. */
  datatype Outcome = Error(message: string) | Navigate(route: string)

  /** The page as first shown. */
  const InitialForm: Form := Form(Citizen, LoginMode, "", "", "")

  /** `handleSubmit`: validate, call the session, and pick the next page. */
  function Submit(form: Form, s: Session.Session, freshId: string): (r: (Outcome, Session.Session))
    ensures r.0.Error? <==> form.email == "" || form.password == "" || (form.mode == SignupMode && form.name == "")
    ensures r.0.Error? ==> r.1 == s
    ensures (form.email == "" || form.password == "") ==> r.0 == Error("Please fill in all fields")
    ensures r.0.Navigate? && form.mode == SignupMode ==>
      r.0.route == "/home" && r.1.user == Some(User(freshId, form.name, form.email, Citizen))
    ensures r.0.Navigate? && form.mode == LoginMode ==>
      && (r.0.route == "/admin" <==> form.role == Admin)
      && (r.0.route == "/home" <==> form.role == Citizen)
      && r.1.user.Some? && r.1.user.value.role == form.role && r.1.user.value.email == form.email
    ensures r.1.user.Some? ==> Session.Restore(r.1.store) == r.1.user || r.0.Error?
  {
    if form.email == "" || form.password == "" then
      (Error("Please fill in all fields"), s)
    else if form.mode == SignupMode then
      if form.name == "" then (Error("Please enter your name"), s)
      else
        var (s', _) := Session.Signup(s, form.name, form.email, form.password, freshId);
        (Navigate("/home"), s')
    else
      var (s', _) := Session.Login(s, form.email, form.password, form.role, freshId);
      (Navigate(if form.role == Admin then "/admin" else "/home"), s')
  }

  /** In login mode the name field plays no part. */
  lemma LoginIgnoresName(form: Form, otherName: string, s: Session.Session, freshId: string)
    requires form.mode == LoginMode
    ensures Submit(form.(name := otherName), s, freshId) == Submit(form, s, freshId)
  {
  }

  /** Choosing a role: always back to login mode. */
  function SelectRole(form: Form, role: Role): (r: Form)
    ensures r.role == role && r.mode == LoginMode
    ensures r.(role := form.role, mode := form.mode) == form
  {
    form.(role := role, mode := LoginMode)
  }

  /** The "Create account" / "Login" switch, shown only to citizens. */
  function ChooseMode(form: Form, mode: Mode): (r: Form)
    ensures form.role == Citizen ==> r == form.(mode := mode)
    ensures form.role == Admin ==> r == form
  {
    if form.role == Citizen then form.(mode := mode) else form
  }

  /** Administrators are always in login mode. */
  predicate Consistent(form: Form) {
    form.role == Admin ==> form.mode == LoginMode
  }

  datatype Action = PickRole(role: Role) | PickMode(mode: Mode) | EditEmail(email: string)
                  | EditPassword(password: string) | EditName(name: string)

  function Apply(form: Form, a: Action): Form {
    match a
    case PickRole(role) => SelectRole(form, role)
    case PickMode(mode) => ChooseMode(form, mode)
    case EditEmail(e) => form.(email := e)
    case EditPassword(p) => form.(password := p)
    case EditName(n) => form.(name := n)
  }

  function ApplyAll(form: Form, actions: seq<Action>): Form
    decreases |actions|
  {
    if |actions| == 0 then form else ApplyAll(Apply(form, actions[0]), actions[1..])
  }

  /**
   * Whatever the user does on the page, an administrator is never in signup
   * mode, so a signup always creates a citizen through the citizen form.
   */
  lemma {:induction false} AdminNeverSignsUp(actions: seq<Action>)
    ensures Consistent(ApplyAll(InitialForm, actions))
  {
    ConsistentPreserved(InitialForm, actions);
  }

  lemma {:induction false} ConsistentPreserved(form: Form, actions: seq<Action>)
    requires Consistent(form)
    ensures Consistent(ApplyAll(form, actions))
    decreases |actions|
  {
    if |actions| > 0 {
      ConsistentPreserved(Apply(form, actions[0]), actions[1..]);
    }
  }

  lemma DemoCitizenName()
    ensures Session.LoginName("citizen@demo.com", Citizen) == "citizen"
  {
    Session.LoginNameOfAddress("citizen", "demo.com");
    assert "citizen" + "@" + "demo.com" == "citizen@demo.com";
  }

  /** The "Demo Citizen" button: a fixed citizen login, then the home page. */
  function DemoCitizen(s: Session.Session, freshId: string): (r: (Outcome, Session.Session))
    ensures r.0 == Navigate("/home")
    ensures r.1.user == Some(User(freshId, "citizen", "citizen@demo.com", Citizen))
  {
    var (s', _) := Session.Login(s, "citizen@demo.com", "password", Citizen, freshId);
    DemoCitizenName();
    (Navigate("/home"), s')
  }

  /** The "Demo Admin" button: a fixed administrator login, then the dashboard. */
  function DemoAdmin(s: Session.Session, freshId: string): (r: (Outcome, Session.Session))
    ensures r.0 == Navigate("/admin")
    ensures r.1.user == Some(User(freshId, "Commander Admin", "admin@resq.ai", Admin))
  {
    var (s', _) := Session.Login(s, "admin@resq.ai", "password", Admin, freshId);
    (Navigate("/admin"), s')
  }
}
