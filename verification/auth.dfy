/**
 * The login and registration pages: what a login stores, remember-me, the
 * redirect after login, the remembered-login prefill, the password
 * confirmation rule and the registration outcome.
 */
module Auth {
  import opened Common
  import opened Storage

  /** The body of a resolved `POST /auth/login`. */
  datatype LoginReply = LoginReply(success: bool, message: Option<string>, token: Option<string>, user: Option<User>)

  /** The login form: the credentials and the remember-me box. */
  datatype LoginForm = LoginForm(email: string, password: string, remember: bool)

  /**
   * What a login does: storage afterwards, the notice, and the page the
   * one-second timer navigates to (`None` when it navigates nowhere).
   */
  datatype Login = Login(store: Store, notice: Notice, redirect: Option<string>)

  /** The default login error. */
  const LoginFailed := "Đăng nhập thất bại!"

  /** Where a signed-in user is sent: the admin panel for an administrator, else the home page. */
  function Landing(u: User): (path: string)
    ensures path == "/admin" <==> IsAdmin(u)
    ensures path == "/" <==> !IsAdmin(u)
  {
    if IsAdmin(u) then "/admin" else "/"
  }

  /**
   * `onFinish(values)` of the login page. A successful reply without a token
   * stores the text "undefined"; one without a user stores text that does
   * not parse, and the timer's callback then throws before navigating.
   */
  function SignIn(s: Store, form: LoginForm, reply: Response<LoginReply>): (r: Login)
    ensures reply.Thrown? ==> r.store == s && r.redirect == None && r.notice == Failure(OrElse(reply.message, LoginFailed))
    ensures reply.Returned? && !reply.body.success ==>
      r.store == s && r.redirect == None && r.notice == Failure(OrElse(reply.body.message, LoginFailed))
    ensures reply.Returned? && reply.body.success ==>
      r.notice == Success(OrElse(reply.body.message, "Đăng nhập thành công!")) &&
      r.store.token == Some(if reply.body.token.Some? then reply.body.token.value else "undefined") &&
      r.store.user == (if reply.body.user.Some? then Present(reply.body.user.value) else Corrupt) &&
      r.store.remembered == (if form.remember then Present(Credentials(form.email, form.password)) else Absent)
    ensures r.redirect.Some? <==> reply.Returned? && reply.body.success && reply.body.user.Some?
    ensures r.redirect.Some? ==> r.redirect.value == Landing(reply.body.user.value)
  {
    match reply
      case Thrown(m) => Login(s, Failure(OrElse(m, LoginFailed)), None)
      case Returned(body) =>
        if !body.success then Login(s, Failure(OrElse(body.message, LoginFailed)), None)
        else
          var token := if body.token.Some? then body.token.value else "undefined";
          var user := if body.user.Some? then Present(body.user.value) else Corrupt;
          var remembered := if form.remember then Present(Credentials(form.email, form.password)) else Absent;
          Login(Store(user, Some(token), remembered), Success(OrElse(body.message, "Đăng nhập thành công!")),
                if body.user.Some? then Some(Landing(body.user.value)) else None)
  }

  /** The delay before the post-login redirect, in milliseconds. */
  const RedirectDelay := 1000

  /** A successful login followed by a fresh read of storage finds the user and the token it stored. */
  lemma SignInThenRead(s: Store, form: LoginForm, token: string, u: User, m: Option<string>)
    ensures SignIn(s, form, Returned(LoginReply(true, m, Some(token), Some(u)))).store.user == Present(u)
    ensures SignIn(s, form, Returned(LoginReply(true, m, Some(token), Some(u)))).store.token == Some(token)
    ensures IsAdmin(u) <==> SignIn(s, form, Returned(LoginReply(true, m, Some(token), Some(u)))).redirect == Some("/admin")
  {
  }

  /** What the login form shows on mount. */
  datatype Prefill = Blank | Filled(email: string, password: string, remember: bool) | Crashed

  /** The remembered-login effect: a stored login fills the form with remember on; unreadable text throws. */
  function PrefillLogin(saved: Slot<Credentials>): (r: Prefill)
    ensures saved.Absent? <==> r.Blank?
    ensures saved.Corrupt? <==> r.Crashed?
    ensures saved.Present? ==> r == Filled(saved.value.email, saved.value.password, true)
  {
    match saved
      case Absent => Blank
      case Corrupt => Crashed
      case Present(c) => Filled(c.email, c.password, true)
  }

  /** A login with remember-me checked is offered again on the next visit. */
  lemma RememberedLoginRoundTrip(s: Store, form: LoginForm, reply: LoginReply)
    requires reply.success && form.remember
    ensures PrefillLogin(SignIn(s, form, Returned(reply)).store.remembered) == Filled(form.email, form.password, true)
  {
  }

  /** With remember-me unchecked nothing is offered on the next visit. */
  lemma ForgottenLogin(s: Store, form: LoginForm, reply: LoginReply)
    requires reply.success && !form.remember
    ensures PrefillLogin(SignIn(s, form, Returned(reply)).store.remembered) == Blank
  {
  }

  /** The message of the confirmation rule. */
  const Mismatch := "Mật khẩu không khớp"

  /** The custom validator of the confirmation field: accept an empty value or one equal to the password. */
  predicate ConfirmValidator(value: Option<string>, password: Option<string>) {
    !Truthy(value) || password == value
  }

  /**
   * The errors the confirmation field shows: the required rule's message for
   * an empty value, the mismatch message for a non-empty value that differs
   * from the password, nothing otherwise.
   */
  function ConfirmErrors(value: Option<string>, password: Option<string>): (errors: seq<string>)
    ensures errors == [] <==> Truthy(value) && password == value
    ensures !Truthy(value) ==> errors == ["Vui lòng nhập lại mật khẩu"]
    ensures Truthy(value) && password != value ==> errors == [Mismatch]
  {
    (if Truthy(value) then [] else ["Vui lòng nhập lại mật khẩu"]) +
    (if ConfirmValidator(value, password) then [] else [Mismatch])
  }

  /** The body of a resolved `POST /auth/register`. */
  datatype RegisterReply = RegisterReply(success: bool, message: Option<string>)

  /** `onFinish` of the registration page: the notice and where it navigates. */
  function Register(reply: Response<RegisterReply>): (r: (Notice, Option<string>))
    ensures reply.Returned? && reply.body.success ==> r == (Success("Đăng ký thành công!"), Some("/auth/login"))
    ensures reply.Returned? && !reply.body.success ==> r == (Failure(OrElse(reply.body.message, "Đăng ký thất bại!")), None)
    ensures reply.Thrown? ==> r == (Failure("Đăng ký thất bại!"), None)
    ensures r.1.Some? <==> reply.Returned? && reply.body.success
  {
    match reply
      case Thrown(_) => (Failure("Đăng ký thất bại!"), None)
      case Returned(body) =>
        if body.success then (Success("Đăng ký thành công!"), Some("/auth/login"))
        else (Failure(OrElse(body.message, "Đăng ký thất bại!")), None)
  }
}
