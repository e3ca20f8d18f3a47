/** src/pages/RegisterPage.tsx: the registration form's checks and what it submits. */
module RegisterPage {
  import opened Wrappers
  import opened Forms

  datatype Form = Form(email: string, password: string, confirmPassword: string, fullName: string, phone: string, address: string)

  /** The checks, in the order `validate` runs them. */
  datatype Problem =
    | EmailMissing
    | EmailMalformed
    | PasswordMissing
    | PasswordTooShort
    | ConfirmMissing
    | ConfirmMismatch
    | FullNameMissing
    | PhoneMalformed

  function Rank(p: Problem): nat {
    match p
    case EmailMissing => 0
    case EmailMalformed => 1
    case PasswordMissing => 2
    case PasswordTooShort => 3
    case ConfirmMissing => 4
    case ConfirmMismatch => 5
    case FullNameMissing => 6
    case PhoneMalformed => 7
  }

  const MinPasswordLength: nat := 6

  /** The form clears check `p`. The full name is tested for emptiness only, without trimming. */
  predicate Passes(f: Form, p: Problem) {
    match p
    case EmailMissing => f.email != ""
    case EmailMalformed => IsEmail(f.email)
    case PasswordMissing => f.password != ""
    case PasswordTooShort => |f.password| >= MinPasswordLength
    case ConfirmMissing => f.confirmPassword != ""
    case ConfirmMismatch => f.password == f.confirmPassword
    case FullNameMissing => f.fullName != ""
    case PhoneMalformed => f.phone == "" || IsPhone(f.phone)
  }

  function Message(p: Problem): string {
    match p
    case EmailMissing => "Vui lòng nhập email"
    case EmailMalformed => "Email không hợp lệ"
    case PasswordMissing => "Vui lòng nhập mật khẩu"
    case PasswordTooShort => "Mật khẩu phải có ít nhất 6 ký tự"
    case ConfirmMissing => "Vui lòng xác nhận mật khẩu"
    case ConfirmMismatch => "Mật khẩu xác nhận không khớp"
    case FullNameMissing => "Vui lòng nhập họ tên"
    case PhoneMalformed => "Số điện thoại không hợp lệ"
  }

  /** `validate()`: the first failing check, or nothing when all pass. */
  function Validate(f: Form): (r: Option<Problem>)
    ensures r.Some? ==> !Passes(f, r.value) && forall p :: Rank(p) < Rank(r.value) ==> Passes(f, p)
    ensures r.None? <==> forall p :: Passes(f, p)
  {
    if f.email == "" then Some(EmailMissing)
    else if !IsEmail(f.email) then Some(EmailMalformed)
    else if f.password == "" then Some(PasswordMissing)
    else if |f.password| < MinPasswordLength then Some(PasswordTooShort)
    else if f.confirmPassword == "" then Some(ConfirmMissing)
    else if f.password != f.confirmPassword then Some(ConfirmMismatch)
    else if f.fullName == "" then Some(FullNameMissing)
    else if f.phone != "" && !IsPhone(f.phone) then Some(PhoneMalformed)
    else None
  }

  /** The body of `authService.register`. */
  datatype Payload = Payload(email: string, password: string, fullName: string, phone: Option<string>, address: Option<string>)

  datatype Outcome = ShowError(message: string) | CallRegister(payload: Payload)

  /** `value || undefined` on a form field. */
  function Optional(s: string): (r: Option<string>)
    ensures r.None? <==> s == ""
    ensures r.Some? ==> r.value == s
  {
    if s == "" then None else Some(s)
  }

  /**
   * `handleSubmit`: a failing check shows its message and nothing is sent; otherwise
   * the form is sent with empty optional fields left out.
   */
  function Submit(f: Form): (r: Outcome)
    ensures r.ShowError? <==> Validate(f).Some?
    ensures r.ShowError? ==> r.message == Message(Validate(f).value)
    ensures r.CallRegister? ==>
      && IsEmail(r.payload.email) && |r.payload.password| >= MinPasswordLength && r.payload.fullName != ""
      && (r.payload.phone.Some? ==> IsPhone(r.payload.phone.value))
      && (r.payload.phone.None? <==> f.phone == "")
      && (r.payload.address.None? <==> f.address == "")
    ensures r.CallRegister? ==>
      r.payload == Payload(f.email, f.password, f.fullName, Optional(f.phone), Optional(f.address))
  {
    match Validate(f)
    case Some(p) => ShowError(Message(p))
    case None =>
      assert Passes(f, EmailMalformed) && Passes(f, PasswordTooShort) && Passes(f, FullNameMissing) && Passes(f, PhoneMalformed);
      CallRegister(Payload(f.email, f.password, f.fullName, Optional(f.phone), Optional(f.address)))
  }

  /** The message shown when `register` throws. */
  const RegisterFailed: string := "Đăng ký thất bại"
}
