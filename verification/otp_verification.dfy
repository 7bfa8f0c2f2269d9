/**
 * The e-mail verification screen after sign-up: four OTP boxes, a Verify button, and the
 * masked address shown to the user.
 */
module OtpVerification {
  import opened Options
  import opened JsText
  import Otp

  /** The screen's state: the boxes and whether a request is in flight. */
  type Screen = Otp.CodeScreen

  const MissingEmailToast: String := "Email is required for verification"

  /** The toast's fallback when the thrown error carries no message. */
  const VerifyFailed: String := "Invalid OTP. Please try again."

  /** The request `verifyEmail` is called with. */
  datatype Call = Call(email: String, code: String)

  /** What a Verify press did. */
  datatype Outcome = Outcome(
    screen: Screen,          // the boxes, and the loading flag once the press is over
    call: Option<Call>,      // the `verifyEmail` request, if one was made
    toast: Option<String>,   // the error toast, if one was shown
    openSuccess: bool)       // whether the success screen is pushed (after 1.5 s)

  /** Whether a route parameter is present and non-empty (truthy). */
  predicate Truthy(email: Option<String>) {
    email.Some? && email.value != []
  }

  /**
   * `handleVerify`: nothing happens unless the joined code has four characters; then a
   * missing address gives a toast, and otherwise `verifyEmail` is called with the address
   * and the code while the loading flag is up. Its result is `failure`: `None` when it
   * returned, or the message of the error it threw. On a return the success screen is
   * pushed; on a throw the error's message is shown, or a fixed text when it is empty.
   * Either way the loading flag is down again afterwards.
   */
  function HandleVerify(s: Screen, email: Option<String>, failure: Option<String>): (r: Outcome)
    ensures |Otp.Join(s.otp)| != 4 ==> r == Outcome(s, None, None, false)
    ensures r.call.Some? <==> |Otp.Join(s.otp)| == 4 && Truthy(email)
    ensures r.call.Some? ==> r.call.value == Call(email.value, Otp.Join(s.otp))
    ensures r.openSuccess <==> r.call.Some? && failure.None?
    ensures r.toast.Some? <==> |Otp.Join(s.otp)| == 4 && (!Truthy(email) || failure.Some?)
    ensures r.toast.Some? && r.call.None? ==> r.toast.value == MissingEmailToast
    ensures r.toast.Some? && r.call.Some? ==>
      r.toast.value == (if failure.value != [] then failure.value else VerifyFailed)
    ensures r.screen.otp == s.otp
    ensures r.call.Some? ==> !r.screen.loading
    ensures r.call.None? ==> r.screen == s
  {
    var code := Otp.Join(s.otp);
    if |code| != 4 then Outcome(s, None, None, false)
    else if !Truthy(email) then Outcome(s, None, Some(MissingEmailToast), false)
    else
      var call := Some(Call(email.value, code));
      match failure
      case None => Outcome(s.(loading := false), call, None, true)
      case Some(message) => Outcome(s.(loading := false), call, Some(OrElse(message, VerifyFailed)), false)
  }

  /** An enabled Verify button on well-formed boxes always gets past the length check. */
  lemma EnabledVerifyHasFullCode(s: Screen, email: Option<String>, failure: Option<String>)
    requires Otp.WellFormed(s.otp) && !Otp.VerifyDisabled(s)
    ensures HandleVerify(s, email, failure) != Outcome(s, None, None, false)
  {
    Otp.FullIffFourCharacters(s.otp);
  }

  /**
   * A press of an enabled button always answers the user: exactly one of the success
   * screen and an error toast follows.
   */
  lemma EnabledVerifyAnswers(s: Screen, email: Option<String>, failure: Option<String>)
    requires Otp.WellFormed(s.otp) && !Otp.VerifyDisabled(s)
    ensures HandleVerify(s, email, failure).openSuccess != HandleVerify(s, email, failure).toast.Some?
  {
    Otp.FullIffFourCharacters(s.otp);
  }

  const Stars: String := "***"

  /**
   * `maskEmail`: an empty address, or one without '@', is returned as it is. Otherwise
   * the text before the first '@' is cut to its first three and last two characters with
   * "***" between them, and '@' and the text between the first and any second '@'
   * follow. (`split('@')` puts the rest, from a second '@' on, in pieces the
   * destructuring drops.)
   */
  function MaskEmail(email: String): (r: String)
    ensures email == [] || '@' !in email ==> r == email
    ensures '@' in email ==>
      var at := IndexOf(email, '@').value;
      r == Masked(email[..at], TakeUntilAt(email[at + 1..]))
  {
    if '@' !in email then email
    else
      var at := IndexOf(email, '@').value;
      Masked(email[..at], TakeUntilAt(email[at + 1..]))
  }

  /** An address put back together from its masked local part and its domain. */
  function Masked(local: String, domain: String): String {
    Prefix(local, 3) + Stars + Suffix(local, 2) + "@" + domain
  }

  /** The text before the first '@' of `s`, or all of `s` when it has none. */
  function TakeUntilAt(s: String): (r: String)
    ensures |r| <= |s| && r == s[..|r|] && '@' !in r
    ensures |r| < |s| ==> s[|r|] == '@'
  {
    match IndexOf(s, '@')
    case None => s
    case Some(i) => s[..i]
  }

  /**
   * A masked address shows at most five characters of the local part, and for an address
   * with a single '@' keeps the whole domain after it.
   */
  lemma MaskHidesLocalPart(email: String, at: nat)
    requires at < |email| && email[at] == '@' && '@' !in email[..at]
    ensures |MaskEmail(email)| <= 5 + |Stars| + 1 + |email| - at - 1
    ensures '@' !in email[at + 1..] ==> MaskEmail(email) == Prefix(email[..at], 3) + Stars + Suffix(email[..at], 2) + "@" + email[at + 1..]
  {
    IndexOfIsFirst(email, '@', at);
    if '@' !in email[at + 1..] {
      assert IndexOf(email[at + 1..], '@').None?;
    }
  }

  /**
   * For a single-'@' address whose local part has five or more characters, the mask keeps
   * exactly its first three and last two characters and the whole domain.
   */
  lemma MaskLongLocalPart(local: String, domain: String)
    requires |local| >= 5 && '@' !in local && '@' !in domain
    ensures MaskEmail(local + "@" + domain) == local[..3] + Stars + local[|local| - 2..] + "@" + domain
  {
    var e := local + "@" + domain;
    assert e[..|local|] == local && e[|local| + 1..] == domain;
    MaskHidesLocalPart(e, |local|);
  }

  /** The address line under the title. */
  function MaskedContact(email: Option<String>): (r: String)
    ensures !Truthy(email) ==> r == "No email provided"
    ensures Truthy(email) ==> r == MaskEmail(email.value)
  {
    if Truthy(email) then MaskEmail(email.value) else "No email provided"
  }

  /**
   * The line under the title never shows more than five characters of the address's local
   * part, and for a single-'@' address shows its whole domain.
   */
  lemma ContactLineHidesLocalPart(email: String, at: nat)
    requires at < |email| && email[at] == '@' && '@' !in email[..at]
    ensures |MaskedContact(Some(email))| <= 5 + |Stars| + |email| - at
    ensures '@' !in email[at + 1..] ==>
      MaskedContact(Some(email)) == Prefix(email[..at], 3) + Stars + Suffix(email[..at], 2) + "@" + email[at + 1..]
  {
    MaskHidesLocalPart(email, at);
  }
}
