/** The login form handler: which flow a submission takes, the messages it
    shows, and where a successful login sends the browser. Sending the
    email link, checking the password and parsing the target URI are
    parameters. */
module Login {
  import opened Wrappers
  import opened Strings

  /** The fields of a form that passed validation. */
  datatype LoginData = LoginData(email: string, password: Option<string>, redirectTo: Option<string>)

  /** An error shown under one field, or under the whole form when `field`
      is "". */
  datatype FieldError = FieldError(field: string, message: string)

  /** A submitted form: the parsed fields when validation passed, the raw
      `redirect_to` and `email` values as posted, and the errors found so
      far. */
  datatype SubmittedForm = SubmittedForm(
    data: Option<LoginData>,
    rawRedirectTo: Option<string>,
    rawEmail: Option<string>,
    errors: seq<FieldError>)

  /** What the outside world answers: whether the email link could be set
      up, the status of the password check, and which strings parse as a
      URI. */
  datatype Env = Env(setupOk: bool, loginStatus: int, parses: string -> bool)

  const StatusOk := 200
  const StatusUnauthorized := 401

  const GenericError := "An error occurred. Please try again later."
  const EmailSent := "Check your email for a link to log in."
  const BadCredentials := "Incorrect email or password"
  const PasswordRequired := "Password is required"

  /** The three ways a valid submission goes. */
  datatype Flow = Passwordless | PasswordMissing | PasswordLogin

  /** The flow for the button that triggered the request and the password
      given; a missing trigger or password counts as "". */
  function ChooseFlow(trigger: Option<string>, password: Option<string>): (r: Flow)
    ensures r == Passwordless <==>
      trigger == Some("passwordless") || (trigger != Some("login") && password.GetOr("") == "")
    ensures r == PasswordMissing <==> trigger == Some("login") && password.GetOr("") == ""
    ensures r == PasswordLogin <==> trigger != Some("passwordless") && password.GetOr("") != ""
  {
    var t := trigger.GetOr("");
    var p := password.GetOr("");
    if t == "passwordless" || (t != "login" && p == "") then Passwordless
    else if p == "" then PasswordMissing
    else PasswordLogin
  }

  /** The rendered form: the messages listed above the fields, the field
      errors, the hidden `redirect_to` value and the email echoed back. */
  datatype PageForm = PageForm(
    messages: seq<string>,
    errors: seq<FieldError>,
    redirectTo: Option<string>,
    email: Option<string>)

  /** `login_page_form`. */
  function RenderForm(form: SubmittedForm, errors: seq<FieldError>, message: string, redirectTo: Option<string>): (r: PageForm)
    ensures r.messages == (if message == "" then [] else [message])
    ensures redirectTo.Some? ==> r.redirectTo == redirectTo
    ensures redirectTo.None? ==> r.redirectTo == form.rawRedirectTo
    ensures r.errors == errors && r.email == form.rawEmail
  {
    PageForm(if message == "" then [] else [message], errors,
      if redirectTo.Some? then redirectTo else form.rawRedirectTo, form.rawEmail)
  }

  /** `login_page`: the empty form, carrying the query's target. */
  function LoginPage(queryRedirectTo: Option<string>): (r: PageForm)
    ensures r.messages == [] && r.errors == [] && r.email == None
    ensures r.redirectTo == queryRedirectTo
  {
    RenderForm(SubmittedForm(None, None, None, []), [], "", queryRedirectTo)
  }

  datatype Response = Redirect(location: string) | Page(form: PageForm)

  /** The target after a successful login, as written: the requested
      target when it starts with '/', otherwise "/"; "/" again when the
      chosen target does not parse. */
  function RedirectTarget(redirectTo: Option<string>, parses: string -> bool): (r: string)
    ensures StartsWith(r, "/")
    ensures redirectTo.Some? && StartsWith(redirectTo.value, "/") && parses(redirectTo.value) ==> r == redirectTo.value
    ensures r != "/" ==> redirectTo == Some(r)
  {
    var target := if redirectTo.Some? && StartsWith(redirectTo.value, "/") then redirectTo.value else "/";
    if parses(target) then target else "/"
  }

  /** A target that stays on this site: a path starting with one '/',
      not "//" or "/\", which browsers read as another host. */
  predicate LocalPath(t: string) {
    StartsWith(t, "/") && !StartsWith(t, "//") && !StartsWith(t, "/\\")
  }

  /** The target after a successful login, keeping only local paths. */
  function SafeRedirectTarget(redirectTo: Option<string>, parses: string -> bool): (r: string)
    ensures LocalPath(r)
    ensures redirectTo.Some? && LocalPath(redirectTo.value) && parses(redirectTo.value) ==> r == redirectTo.value
    ensures r != "/" ==> redirectTo == Some(r)
  {
    var target := if redirectTo.Some? && LocalPath(redirectTo.value) then redirectTo.value else "/";
    if parses(target) then target else "/"
  }

  /** The two filters disagree only on a target that leaves the site. */
  lemma TargetsDifferOnlyOffSite(redirectTo: Option<string>, parses: string -> bool)
    ensures RedirectTarget(redirectTo, parses) != SafeRedirectTarget(redirectTo, parses) ==>
      var t := RedirectTarget(redirectTo, parses);
      (StartsWith(t, "//") || StartsWith(t, "/\\")) && SafeRedirectTarget(redirectTo, parses) == "/"
  {
  }

  /** `login_form` with the redirect target passed in. */
  function Respond(trigger: Option<string>, form: SubmittedForm, env: Env, target: string): (r: Response)
    ensures r.Redirect? <==>
      form.data.Some? && ChooseFlow(trigger, form.data.value.password) == PasswordLogin && env.loginStatus == StatusOk
    ensures r.Redirect? ==> r.location == target
  {
    match form.data
    case None => Page(RenderForm(form, form.errors, "", None))
    case Some(data) =>
      match ChooseFlow(trigger, data.password)
      case Passwordless =>
        Page(RenderForm(form, form.errors, if env.setupOk then EmailSent else GenericError, data.redirectTo))
      case PasswordMissing =>
        Page(RenderForm(form, form.errors + [FieldError("password", PasswordRequired)], "", data.redirectTo))
      case PasswordLogin =>
        if env.loginStatus == StatusOk then Redirect(target)
        else Page(RenderForm(form, form.errors,
          if env.loginStatus == StatusUnauthorized then BadCredentials else GenericError, data.redirectTo))
  }

  function RequestedTarget(form: SubmittedForm): Option<string> {
    if form.data.Some? then form.data.value.redirectTo else None
  }

  /** `login_form` as written. */
  function LoginFormAsWritten(trigger: Option<string>, form: SubmittedForm, env: Env): (r: Response)
    ensures r.Redirect? ==> StartsWith(r.location, "/")
  {
    Respond(trigger, form, env, RedirectTarget(RequestedTarget(form), env.parses))
  }

  /** `login_form` with the redirect kept on the site. */
  function LoginForm(trigger: Option<string>, form: SubmittedForm, env: Env): (r: Response)
    ensures r.Redirect? ==> LocalPath(r.location)
  {
    Respond(trigger, form, env, SafeRedirectTarget(RequestedTarget(form), env.parses))
  }

  /** A protocol-relative target passes the leading-'/' check and sends
      the browser to another host. */
  lemma OffSiteRedirectAsWritten()
    ensures var form := SubmittedForm(Some(LoginData("a@b.c", Some("pw"), Some("//evil.example"))),
        Some("//evil.example"), Some("a@b.c"), []);
      var env := Env(true, StatusOk, (s: string) => true);
      && LoginFormAsWritten(Some("login"), form, env) == Redirect("//evil.example")
      && LoginForm(Some("login"), form, env) == Redirect("/")
  {
    var t := "//evil.example";
    assert StartsWith(t, "/") && StartsWith(t, "//") by {
      assert t[..1] == "/" && t[..2] == "//";
    }
  }

  /** The browser is sent on exactly when a valid form with a password,
      not sent by the email-link button, passed the password check; the
      target then stays on the site. */
  lemma RedirectOnlyAfterLogin(trigger: Option<string>, form: SubmittedForm, env: Env)
    ensures LoginForm(trigger, form, env).Redirect? <==>
      && form.data.Some?
      && trigger != Some("passwordless") && form.data.value.password.GetOr("") != ""
      && env.loginStatus == StatusOk
    ensures LoginForm(trigger, form, env).Redirect? ==> LocalPath(LoginForm(trigger, form, env).location)
  {
  }

  /** The messages each outcome shows. */
  lemma Messages(trigger: Option<string>, form: SubmittedForm, env: Env)
    requires form.data.Some?
    ensures var r := LoginForm(trigger, form, env);
      var flow := ChooseFlow(trigger, form.data.value.password);
      && (flow == Passwordless ==> r.Page? && r.form.messages == [if env.setupOk then EmailSent else GenericError])
      && (flow == PasswordMissing ==>
            (r.Page? && r.form.messages == [] && r.form.errors == form.errors + [FieldError("password", PasswordRequired)]))
      && (flow == PasswordLogin && env.loginStatus == StatusUnauthorized ==>
            r.Page? && r.form.messages == [BadCredentials])
      && (flow == PasswordLogin && env.loginStatus != StatusOk && env.loginStatus != StatusUnauthorized ==>
            r.Page? && r.form.messages == [GenericError])
  {
  }

  /** A form that failed validation is shown again with its errors, no
      message, and the target it was posted with. */
  lemma InvalidFormShownAgain(trigger: Option<string>, form: SubmittedForm, env: Env)
    requires form.data.None?
    ensures LoginForm(trigger, form, env) == Page(PageForm([], form.errors, form.rawRedirectTo, form.rawEmail))
  {
  }

  /** A page shown again keeps the requested target, or the posted one
      when the form did not name one. */
  lemma TargetCarriedOver(trigger: Option<string>, form: SubmittedForm, env: Env)
    requires form.data.Some?
    ensures var r := LoginForm(trigger, form, env);
      r.Page? ==> r.form.redirectTo == (if form.data.value.redirectTo.Some? then form.data.value.redirectTo else form.rawRedirectTo)
  {
  }
}
