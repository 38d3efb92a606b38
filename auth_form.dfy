/** The sign-in card: a small machine over the modes `login`, `forgot`,
    `reset` and `success`, driven by the form's submit handler and three
    buttons. Submitting in `login` mode signs in through the service's
    `login`; the other modes only check their fields and move on. */
module Auth {
  import opened Records
  import Seqs
  import DbService

  datatype Mode = Login | Forgot | Reset | Success

  datatype Option<T> = None | Some(value: T)

  /** The component's state that submitting and the buttons read or write. */
  datatype Form = Form(
    email: string, password: string, error: string, mode: Mode,
    resetEmail: string, newPassword: string, confirmPassword: string)

  /** The state the card opens with: the demo account filled in. */
  const Initial: Form :=
    Form("student_alice@sonatech.ac.in", "password123", "", Login, "", "", "")

  /** Passwords shorter than this are refused before anything else. */
  const MinPasswordLength: int := 8

  /** The only mail domain the card accepts. */
  const Domain: string := "@sonatech.ac.in"

  const EmailError: string := "Please use a valid @sonatech.ac.in email address."
  const PasswordError: string := "Password must be at least 8 characters long."
  const CredentialsError: string := "The credentials provided do not match any scholar profile."
  const ResetEmailError: string := "Please enter a valid @sonatech.ac.in email address."
  const NewPasswordError: string := "New password must be at least 8 characters long."
  const MismatchError: string := "Passwords do not match."

  /** `validateEmail`: the address ends with the college domain. */
  predicate ValidateEmail(e: string) {
    |Domain| <= |e| && e[|e| - |Domain|..] == Domain
  }

  /** An address passes exactly when it is some name followed by the
      domain. */
  lemma ValidateEmailIsDomainSuffix(e: string)
    ensures ValidateEmail(e) <==> exists name :: e == name + Domain
  {
    if ValidateEmail(e) {
      var name := e[..|e| - |Domain|];
      assert e == name + Domain;
    }
    forall name | e == name + Domain ensures ValidateEmail(e) {
      assert e[|e| - |Domain|..] == Domain;
    }
  }

  /** `email.split('@')[0]`: everything before the first '@', or the whole
      address when it has none. */
  function UsernameOf(email: string): (name: string)
    ensures '@' !in name
    ensures name <= email
    ensures |name| < |email| ==> email[|name|] == '@'
  {
    var i := Seqs.FindIndex(email, (c: char) => c == '@');
    if i == -1 then email else email[..i]
  }

  /** A college address built from a name without '@' passes the check and
      gives that name back as the username. */
  lemma UsernameOfCollegeAddress(name: string)
    requires '@' !in name
    ensures ValidateEmail(name + Domain)
    ensures UsernameOf(name + Domain) == name
  {
    var e := name + Domain;
    assert e[|e| - |Domain|..] == Domain;
    assert e[|name|] == '@';
  }

  /** What a submit leaves behind: the new state, and the account handed to
      `onLogin` when signing in succeeded. */
  datatype Outcome = Outcome(form: Form, signedIn: Option<UserView>)

  /** `handleSubmit`. The error is cleared first; each check that fails
      sets its own message and stops there, leaving the mode alone. In
      `login` mode a failed lookup of the username sets the credentials
      message. */
  function Submit(f: Form, users: seq<User>, tracking: seq<Track>, today: string): (r: Outcome)
    ensures r.form == f.(mode := r.form.mode, error := r.form.error)
    ensures r.form.error != "" ==> r.form.mode == f.mode && r.signedIn == None
    ensures r.form.mode == f.mode
         || (f.mode == Forgot && r.form.mode == Reset && r.form.error == "")
         || (f.mode == Reset && r.form.mode == Success && r.form.error == "")
    ensures r.signedIn.Some? ==> f.mode == Login && r.form.error == ""
  {
    var g := f.(error := "");
    match f.mode
    case Login =>
      if !ValidateEmail(f.email) then Outcome(g.(error := EmailError), None)
      else if |f.password| < MinPasswordLength then Outcome(g.(error := PasswordError), None)
      else (
        match DbService.Login(users, tracking, UsernameOf(f.email), today)
        case Ok(v) => Outcome(g, Some(v))
        case Err(_) => Outcome(g.(error := CredentialsError), None))
    case Forgot =>
      if !ValidateEmail(f.resetEmail) then Outcome(g.(error := ResetEmailError), None)
      else Outcome(g.(mode := Reset), None)
    case Reset =>
      if |f.newPassword| < MinPasswordLength then Outcome(g.(error := NewPasswordError), None)
      else if f.newPassword != f.confirmPassword then Outcome(g.(error := MismatchError), None)
      else Outcome(g.(mode := Success), None)
    case Success =>
      Outcome(g, None)
  }

  /** In `login` mode the address is checked before the password, and
      signing in succeeds exactly when both pass and some account carries
      the part of the address before the '@'; the password's content,
      beyond its length, is never looked at. */
  lemma LoginSubmit(f: Form, users: seq<User>, tracking: seq<Track>, today: string)
    requires f.mode == Login
    ensures var r := Submit(f, users, tracking, today);
      && (!ValidateEmail(f.email) ==> r.form.error == EmailError)
      && (ValidateEmail(f.email) && |f.password| < MinPasswordLength ==> r.form.error == PasswordError)
      && (r.signedIn.Some? <==>
            ValidateEmail(f.email) && |f.password| >= MinPasswordLength
            && exists k :: 0 <= k < |users| && users[k].username == UsernameOf(f.email))
      && (r.signedIn.Some? ==> r.signedIn.value.username == UsernameOf(f.email))
      && (r.signedIn.None? ==> r.form.error != "")
  {
  }

  /** Any two passwords of the allowed length sign in alike. */
  lemma PasswordOnlyLength(f: Form, p: string, q: string, users: seq<User>, tracking: seq<Track>, today: string)
    requires |p| >= MinPasswordLength && |q| >= MinPasswordLength
    ensures Submit(f.(password := p), users, tracking, today).signedIn
         == Submit(f.(password := q), users, tracking, today).signedIn
  {
  }

  /** In `forgot` mode a valid reset address moves on to `reset`; an
      invalid one stays with its message. */
  lemma ForgotSubmit(f: Form, users: seq<User>, tracking: seq<Track>, today: string)
    requires f.mode == Forgot
    ensures var r := Submit(f, users, tracking, today);
      && (r.form.mode == Reset <==> ValidateEmail(f.resetEmail))
      && (r.form.mode == Forgot <==> r.form.error == ResetEmailError)
  {
  }

  /** In `reset` mode the length is checked before the confirmation, and
      the mode becomes `success` exactly when the new password is long
      enough and typed the same twice. */
  lemma ResetSubmit(f: Form, users: seq<User>, tracking: seq<Track>, today: string)
    requires f.mode == Reset
    ensures var r := Submit(f, users, tracking, today);
      && (|f.newPassword| < MinPasswordLength ==> r.form.error == NewPasswordError)
      && (|f.newPassword| >= MinPasswordLength && f.newPassword != f.confirmPassword ==> r.form.error == MismatchError)
      && (r.form.mode == Success <==>
            |f.newPassword| >= MinPasswordLength && f.newPassword == f.confirmPassword)
  {
  }

  /** The card's buttons: "Return to Login" on the success screen,
      "Forgot password?" in `login` mode, "Back to Login" in `forgot` mode. */
  datatype Button = ReturnToLogin | ForgotPassword | BackToLogin

  /** The button is on screen in this mode. */
  predicate Shown(m: Mode, b: Button) {
    match b
    case ReturnToLogin => m == Success
    case ForgotPassword => m == Login
    case BackToLogin => m == Forgot
  }

  /** The state after clicking a button. Only the two buttons inside the
      form clear the error. */
  function Press(f: Form, b: Button): (g: Form)
    ensures g.mode == (if b == ForgotPassword then Forgot else Login)
    ensures b != ReturnToLogin ==> g.error == ""
    ensures b == ReturnToLogin ==> g.error == f.error
    ensures g.(mode := f.mode, error := f.error) == f
  {
    match b
    case ReturnToLogin => f.(mode := Login)
    case ForgotPassword => f.(mode := Forgot, error := "")
    case BackToLogin => f.(mode := Login, error := "")
  }

  /** What the user can do to the card: submit the form (not rendered on
      the success screen) or click a button that is on screen. */
  datatype Event = SubmitForm | Click(b: Button)

  predicate Available(m: Mode, e: Event) {
    match e
    case SubmitForm => m != Success
    case Click(b) => Shown(m, b)
  }

  /** One user action; an action that is not available changes nothing. */
  function Step(f: Form, e: Event, users: seq<User>, tracking: seq<Track>, today: string): Form {
    if !Available(f.mode, e) then f
    else match e
      case SubmitForm => Submit(f, users, tracking, today).form
      case Click(b) => Press(f, b)
  }

  /** The moves between modes that one action can make. */
  predicate Move(from: Mode, to: Mode) {
    from == to
    || (from == Login && to == Forgot) || (from == Forgot && to == Login)
    || (from == Forgot && to == Reset) || (from == Reset && to == Success)
    || (from == Success && to == Login)
  }

  /** Every action moves along the mode graph; in particular `reset` has no
      way back, and `success` is left only by the button back to `login`. */
  lemma StepMoves(f: Form, e: Event, users: seq<User>, tracking: seq<Track>, today: string)
    ensures Move(f.mode, Step(f, e, users, tracking, today).mode)
    ensures f.mode == Success && Step(f, e, users, tracking, today).mode != Success
            ==> e == Click(ReturnToLogin)
  {
  }

  /** The state after a run of actions. */
  function Run(f: Form, es: seq<Event>, users: seq<User>, tracking: seq<Track>, today: string): Form
    decreases |es|
  {
    if es == [] then f else Run(Step(f, es[0], users, tracking, today), es[1..], users, tracking, today)
  }

  /** Actions change only the mode and the error: what was typed stays. */
  lemma {:induction false} RunKeepsInput(f: Form, es: seq<Event>, users: seq<User>, tracking: seq<Track>, today: string)
    ensures var g := Run(f, es, users, tracking, today);
      g == f.(mode := g.mode, error := g.error)
    decreases |es|
  {
    if es != [] {
      var h := Step(f, es[0], users, tracking, today);
      assert h == f.(mode := h.mode, error := h.error);
      RunKeepsInput(h, es[1..], users, tracking, today);
    }
  }

  /** Whatever the user clicks, the card reaches `reset` or `success` from
      `login` or `forgot` only with a valid reset address, and reaches
      `success` only with a new password of the allowed length typed the
      same twice. */
  lemma {:induction false} RunGuards(f: Form, es: seq<Event>, users: seq<User>, tracking: seq<Track>, today: string)
    ensures var g := Run(f, es, users, tracking, today);
      && ((f.mode == Login || f.mode == Forgot) && (g.mode == Reset || g.mode == Success)
          ==> ValidateEmail(f.resetEmail))
      && (f.mode != Success && g.mode == Success
          ==> |f.newPassword| >= MinPasswordLength && f.newPassword == f.confirmPassword)
    decreases |es|
  {
    if es != [] {
      var h := Step(f, es[0], users, tracking, today);
      StepMoves(f, es[0], users, tracking, today);
      assert h == f.(mode := h.mode, error := h.error);
      if f.mode == Forgot && h.mode == Reset {
        ForgotSubmit(f, users, tracking, today);
      }
      if f.mode == Reset && h.mode == Success {
        ResetSubmit(f, users, tracking, today);
      }
      RunGuards(h, es[1..], users, tracking, today);
    }
  }

  /** The component itself: its state hooks as fields that the handlers
      overwrite. */
  class AuthForm {
    var email: string
    var password: string
    var error: string
    var mode: Mode
    var resetEmail: string
    var newPassword: string
    var confirmPassword: string

    function State(): Form
      reads this
    {
      Form(email, password, error, mode, resetEmail, newPassword, confirmPassword)
    }

    constructor ()
      ensures State() == Initial
    {
      email := "student_alice@sonatech.ac.in";
      password := "password123";
      error := "";
      mode := Login;
      resetEmail := "";
      newPassword := "";
      confirmPassword := "";
    }

    /** `handleSubmit`, with `mockDb.login` answered from the given store. */
    method HandleSubmit(users: seq<User>, tracking: seq<Track>, today: string) returns (signedIn: Option<UserView>)
      modifies this
      ensures State() == Submit(old(State()), users, tracking, today).form
      ensures signedIn == Submit(old(State()), users, tracking, today).signedIn
    {
      signedIn := None;
      error := "";
      if mode == Login {
        if !ValidateEmail(email) {
          error := EmailError;
          return;
        }
        if |password| < MinPasswordLength {
          error := PasswordError;
          return;
        }
        var username := UsernameOf(email);
        var result := DbService.Login(users, tracking, username, today);
        if result.Ok? {
          signedIn := Some(result.value);
        } else {
          error := CredentialsError;
        }
      } else if mode == Forgot {
        if !ValidateEmail(resetEmail) {
          error := ResetEmailError;
          return;
        }
        mode := Reset;
      } else if mode == Reset {
        if |newPassword| < MinPasswordLength {
          error := NewPasswordError;
          return;
        }
        if newPassword != confirmPassword {
          error := MismatchError;
          return;
        }
        mode := Success;
      }
    }

    /** "Return to Login" on the success screen. */
    method ReturnToLoginClicked()
      requires mode == Success
      modifies this
      ensures State() == Press(old(State()), ReturnToLogin)
    {
      mode := Login;
    }

    /** "Forgot password?" under the password field. */
    method ForgotPasswordClicked()
      requires mode == Login
      modifies this
      ensures State() == Press(old(State()), ForgotPassword)
    {
      mode := Forgot;
      error := "";
    }

    /** "Back to Login" under the reset address field. */
    method BackToLoginClicked()
      requires mode == Forgot
      modifies this
      ensures State() == Press(old(State()), BackToLogin)
    {
      mode := Login;
      error := "";
    }
  }
}
