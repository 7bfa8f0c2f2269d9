/**
 * The login screen: email and password fields, the validation errors shown under them, and
 * the Log In press that validates, signs in and opens onboarding.
 */
module Login {
  import opened Options
  import opened JsText
  import opened Validation

  /** The screen's state. */
  datatype Screen = Screen(email: String, password: String, loading: bool, errors: LoginErrors)

  const NoErrors: LoginErrors := LoginErrors(None, None)

  /** `isLoginDisabled() || isLoading`: the button is greyed out and ignores presses. */
  function LoginDisabled(s: Screen): (disabled: bool)
    ensures !disabled <==> !IsBlank(s.email) && !IsBlank(s.password) && !s.loading
  {
    IsBlank(s.email) || IsBlank(s.password) || s.loading
  }

  /** A field whose error can be cleared. */
  datatype Field = EmailField | PasswordField

  /**
   * `clearFieldError`: a non-empty message under the named field is removed; the other
   * field's message, and an absent one, are left as they are.
   */
  function ClearFieldError(e: LoginErrors, field: Field): (r: LoginErrors)
    ensures field.EmailField? ==> r.password == e.password
    ensures field.PasswordField? ==> r.email == e.email
    ensures field.EmailField? && e.email.Some? && e.email.value != [] ==> r.email.None?
    ensures field.PasswordField? && e.password.Some? && e.password.value != [] ==> r.password.None?
    ensures field.EmailField? && e.email.None? ==> r == e
    ensures field.PasswordField? && e.password.None? ==> r == e
  {
    match field
    case EmailField => if e.email.Some? && e.email.value != [] then e.(email := None) else e
    case PasswordField => if e.password.Some? && e.password.value != [] then e.(password := None) else e
  }

  /** Clearing a field's error twice is the same as clearing it once. */
  lemma ClearFieldErrorIdempotent(e: LoginErrors, field: Field)
    ensures ClearFieldError(ClearFieldError(e, field), field) == ClearFieldError(e, field)
  {
  }

  /** Typing into a field: the text is stored and that field's error cleared. */
  function Type(s: Screen, field: Field, text: String): (r: Screen)
    ensures field.EmailField? ==> r.email == text && r.password == s.password
    ensures field.PasswordField? ==> r.password == text && r.email == s.email
    ensures r.errors == ClearFieldError(s.errors, field) && r.loading == s.loading
  {
    match field
    case EmailField => s.(email := text, errors := ClearFieldError(s.errors, field))
    case PasswordField => s.(password := text, errors := ClearFieldError(s.errors, field))
  }

  /** The arguments `login` is called with. */
  datatype Credentials = Credentials(email: String, password: String)

  /** The toast's fallback when the failure carries no message. */
  const SignInFailed: String := "Invalid email or password. Please try again."

  /** What a Log In press did. */
  datatype Outcome = Outcome(
    screen: Screen,
    alert: Option<String>,        // the first validation error, shown in an alert
    call: Option<Credentials>,    // the sign-in request, if one was made
    opensOnboarding: bool,
    toast: Option<String>)        // the error toast after a failed sign-in

  /**
   * `handleLogin`: nothing while a request is loading. Otherwise the form is validated;
   * with errors they are stored, the first one (the email's before the password's) is
   * alerted and `login` is not called. Without errors `login` gets the trimmed, lower-cased
   * email and the password as typed. Its answer is `failure`: `None` when `login`
   * returned, and onboarding opens; or the message of the error it threw, shown in a toast
   * (a fixed text when the message is empty).
   */
  function HandleLogin(s: Screen, failure: Option<String>): (r: Outcome)
    ensures s.loading ==> r == Outcome(s, None, None, false, None)
    ensures !s.loading && ValidateLoginForm(s.email, s.password).HasAny() ==>
      && r.screen == s.(errors := ValidateLoginForm(s.email, s.password))
      && r.call.None? && !r.opensOnboarding && r.toast.None?
      && r.alert == (if r.screen.errors.email.Some? then r.screen.errors.email else r.screen.errors.password)
    ensures r.call.Some? <==> !s.loading && ValidateEmail(s.email) && s.password != []
    ensures r.call.Some? ==> r.call.value == Credentials(ToLower(Trim(s.email)), s.password)
    ensures r.call.Some? ==> r.screen == s && r.alert.None?
    ensures r.opensOnboarding <==> r.call.Some? && failure.None?
    ensures r.toast.Some? <==> r.call.Some? && failure.Some?
    ensures r.toast.Some? ==>
      r.toast.value == (if failure.value != [] then failure.value else SignInFailed)
  {
    if s.loading then Outcome(s, None, None, false, None)
    else
      var errors := ValidateLoginForm(s.email, s.password);
      if errors.HasAny() then
        Outcome(s.(errors := errors), if errors.email.Some? then errors.email else errors.password, None, false, None)
      else
        var call := Some(Credentials(ToLower(Trim(s.email)), s.password));
        match failure
        case None => Outcome(s, None, call, true, None)
        case Some(message) => Outcome(s, None, call, false, Some(OrElse(message, SignInFailed)))
  }

  /**
   * An enabled button never meets the "required" messages: the password is non-empty, and
   * any error left is the email's format message.
   */
  lemma EnabledPressNeedsOnlyFormat(s: Screen, failure: Option<String>)
    requires !LoginDisabled(s)
    ensures ValidateLoginForm(s.email, s.password).password.None?
    ensures ValidateLoginForm(s.email, s.password).email != Some(EmailRequired)
    ensures HandleLogin(s, failure).call.Some? <==> ValidateEmail(s.email)
  {
    BlankIffAllSpace(s.password);
  }

  /** The email sent is the typed one, lower-cased: a valid address has no surrounding whitespace. */
  lemma SentEmailIsLowerCasedInput(s: Screen, failure: Option<String>)
    requires HandleLogin(s, failure).call.Some?
    ensures HandleLogin(s, failure).call.value.email == ToLower(s.email)
  {
    ValidEmailStructure(s.email);
    TrimWithoutSpace(s.email);
  }
}
