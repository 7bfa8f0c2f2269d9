/**
 * The forgot-password screen: one email field. Continue checks the address, asks the
 * server to send a reset code to it, and on success opens the code screen for it.
 */
module ForgotPassword {
  import opened Options
  import opened JsText
  import Validation

  /** The field and its error line (empty when there is none). */
  datatype Form = Form(email: String, error: String)

  /** `handleEmailChange`: the text is stored and any error is cleared. */
  function EmailChange(f: Form, text: String): (r: Form)
    ensures r.email == text && r.error == []
  {
    Form(text, if f.error != [] then [] else f.error)
  }

  /**
   * `isContinueDisabled`: the address is blank or fails the email pattern. The pattern is
   * tried on the text as typed, not on its trim.
   */
  function ContinueDisabled(f: Form): (disabled: bool)
    ensures !disabled <==> !IsBlank(f.email) && Validation.MatchesEmailPattern(f.email)
  {
    IsBlank(f.email) || !Validation.ValidateEmail(f.email)
  }

  /** The address sent to the server and passed to the next screen: trimmed, then lower-cased. */
  function RequestAddress(email: String): String {
    ToLower(Trim(email))
  }

  /** The toast's fallback when the failure carries no message. */
  const SendFailed: String := "Failed to send OTP. Please try again."

  /** What a Continue press did. */
  datatype Outcome = Outcome(
    form: Form,
    request: Option<String>,    // the address `forgotPassword` was called with, if it was
    openCode: Option<String>,   // the address passed to the code screen, if it opened
    toast: Option<String>)      // the error toast, if one was shown

  /**
   * `handleContinue`: a blank address gets "Email is required" and an invalid one the
   * format message, and neither reaches the server. Otherwise the request is made. The
   * server's answer is `failure`: `None` when `forgotPassword` returned, or the message of
   * the error it threw. On a return the code screen opens; on a throw the screen stays and
   * shows the error's message, or a fixed text when the message is empty.
   */
  function HandleContinue(f: Form, failure: Option<String>): (r: Outcome)
    ensures IsBlank(f.email) ==> r == Outcome(f.(error := Validation.EmailRequired), None, None, None)
    ensures !IsBlank(f.email) && !Validation.ValidateEmail(f.email) ==>
      r == Outcome(f.(error := Validation.EmailInvalid), None, None, None)
    ensures r.request.Some? <==> Validation.ValidateEmail(f.email)
    ensures r.request.Some? ==> r.request.value == RequestAddress(f.email) && r.form == f
    ensures r.openCode.Some? <==> r.request.Some? && failure.None?
    ensures r.openCode.Some? ==> r.openCode == r.request
    ensures r.toast.Some? <==> r.request.Some? && failure.Some?
    ensures r.toast.Some? ==>
      r.toast.value == (if failure.value != [] then failure.value else SendFailed)
  {
    Validation.ValidEmailIsNotBlank(f.email);
    if IsBlank(f.email) then Outcome(f.(error := Validation.EmailRequired), None, None, None)
    else if !Validation.ValidateEmail(f.email) then Outcome(f.(error := Validation.EmailInvalid), None, None, None)
    else
      var address := RequestAddress(f.email);
      match failure
      case None => Outcome(f, Some(address), Some(address), None)
      case Some(message) => Outcome(f, Some(address), None, Some(OrElse(message, SendFailed)))
  }

  /**
   * The error a press shows is the one the shared email rule gives, and a request goes out
   * exactly when the button is enabled.
   */
  lemma ContinueMatchesSharedRule(f: Form, failure: Option<String>)
    ensures Validation.EmailError(f.email).Some? ==>
      HandleContinue(f, failure).form.error == Validation.EmailError(f.email).value
    ensures HandleContinue(f, failure).request.Some? <==> !ContinueDisabled(f)
  {
    Validation.ValidEmailIsNotBlank(f.email);
  }

  /**
   * An address that passes has no surrounding whitespace, so the request carries the typed
   * address, only lower-cased: same length, and the same characters apart from case.
   */
  lemma RequestIsLowerCasedInput(f: Form, failure: Option<String>)
    requires HandleContinue(f, failure).request.Some?
    ensures HandleContinue(f, failure).request.value == ToLower(f.email)
    ensures |HandleContinue(f, failure).request.value| == |f.email|
  {
    Validation.ValidEmailStructure(f.email);
    TrimWithoutSpace(f.email);
  }
}
