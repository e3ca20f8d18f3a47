/** src/pages/LoginPage.tsx: the login form's checks and what it submits. */
module LoginPage {
  import opened Wrappers
  import opened Forms

  /** The checks, in the order `validate` runs them. */
  datatype Problem = EmailRequired | InvalidEmail | PasswordRequired

  function Rank(p: Problem): nat {
    match p
    case EmailRequired => 0
    case InvalidEmail => 1
    case PasswordRequired => 2
  }

  predicate Passes(email: string, password: string, p: Problem) {
    match p
    case EmailRequired => email != ""
    case InvalidEmail => IsEmail(email)
    case PasswordRequired => password != ""
  }

  function Message(p: Problem): string {
    match p
    case EmailRequired => "Email is required"
    case InvalidEmail => "Invalid email"
    case PasswordRequired => "Password is required"
  }

  /** `validate()`: the first failing check, or nothing when all pass. */
  function Validate(email: string, password: string): (r: Option<Problem>)
    ensures r.Some? ==>
      !Passes(email, password, r.value) && forall p :: Rank(p) < Rank(r.value) ==> Passes(email, password, p)
    ensures r.None? <==> forall p :: Passes(email, password, p)
  {
    if email == "" then Some(EmailRequired)
    else if !IsEmail(email) then Some(InvalidEmail)
    else if password == "" then Some(PasswordRequired)
    else None
  }

  /** The empty password is reported only for a well-formed email. */
  lemma PasswordCheckedLast(email: string, password: string)
    ensures Validate(email, password) == Some(PasswordRequired) <==> IsEmail(email) && password == ""
  {
    if IsEmail(email) {
      assert email != "";
    }
  }

  datatype Outcome = ShowError(message: string) | CallLogin(email: string, password: string)

  /** `handleSubmit`: a failing check shows its message and `login` is not called. */
  function Submit(email: string, password: string): (r: Outcome)
    ensures r.ShowError? <==> Validate(email, password).Some?
    ensures r.ShowError? ==> r.message == Message(Validate(email, password).value)
    ensures r.CallLogin? ==> IsEmail(r.email) && r.password != "" && r.email == email && r.password == password
  {
    match Validate(email, password)
    case Some(p) => ShowError(Message(p))
    case None =>
      assert Passes(email, password, InvalidEmail) && Passes(email, password, PasswordRequired);
      CallLogin(email, password)
  }

  /** The message shown when `login` throws without a message of its own. */
  const LoginFailed: string := "Login failed"
}
