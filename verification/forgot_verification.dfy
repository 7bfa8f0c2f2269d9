/**
 * The password-reset code screen: four OTP boxes, and a Verify press that asks the server
 * to check the code and then opens the reset-password screen with the address and code.
 * The server's answer is a parameter; the auth context's `verifyOtp` wrapper is modelled
 * here because what it does with a failure decides where the screen goes.
 */
module ForgotPasswordVerification {
  import opened Options
  import opened JsText
  import Otp
  import OtpVerification

  /** The boxes and the loading flag, kept exactly as on the sign-up code screen. */
  type Screen = Otp.CodeScreen

  const Placeholder: String := "gol***th@gmail.com"

  /** The address line: the route's address, or a fixed placeholder when it is missing or empty. */
  function MaskedEmail(email: Option<String>): (r: String)
    ensures email.Some? && email.value != [] ==> r == email.value
    ensures email.None? || email.value == [] ==> r == Placeholder
  {
    if email.Some? && email.value != [] then email.value else Placeholder
  }

  /**
   * This screen shows the address in full, where the sign-up code screen masks it: for a
   * single-'@' address whose local part has five or more characters and no '*', the two
   * lines differ, and only the sign-up line hides the middle of the local part.
   */
  lemma AddressShownUnmasked(local: String, domain: String)
    requires |local| >= 5 && '@' !in local && '@' !in domain && '*' !in local
    ensures MaskedEmail(Some(local + "@" + domain)) == local + "@" + domain
    ensures OtpVerification.MaskedContact(Some(local + "@" + domain)) ==
      local[..3] + OtpVerification.Stars + local[|local| - 2..] + "@" + domain
    ensures MaskedEmail(Some(local + "@" + domain)) != OtpVerification.MaskedContact(Some(local + "@" + domain))
  {
    var e := local + "@" + domain;
    OtpVerification.MaskLongLocalPart(local, domain);
    var m := local[..3] + OtpVerification.Stars + local[|local| - 2..] + "@" + domain;
    assert m[3] == (local[..3] + OtpVerification.Stars)[3] == '*';
    assert e[3] != m[3] by {
      assert e[3] == local[3];
      assert local[3] in local;
    }
  }

  /** What the server made of a request. */
  datatype ServerReply =
    | Response(statusCode: int, message: String)   // an HTTP answer
    | Failure(message: String)                     // the request threw (network or HTTP error)

  predicate IsSuccess(reply: ServerReply) {
    reply.Response? && (reply.statusCode == 200 || reply.statusCode == 201)
  }

  datatype Toast = SuccessToast(text: String) | ErrorToast(text: String)

  /** How an awaited call ended: normally, or by throwing; and the toast it showed. */
  datatype CallEnd = CallEnd(threw: bool, toast: Toast)

  /**
   * The auth context's `verifyOtp`: a 200 or 201 shows the success toast; any other answer
   * or a thrown error shows an error toast. In every case it returns normally.
   */
  function VerifyOtp(reply: ServerReply): (r: CallEnd)
    ensures !r.threw
    ensures r.toast.SuccessToast? <==> IsSuccess(reply)
    ensures IsSuccess(reply) ==> r.toast.text == "OTP Verified successfully"
    ensures reply.Response? && !IsSuccess(reply) ==>
      r.toast.text == (if reply.message != [] then reply.message else "OTP verification failed")
    ensures reply.Failure? ==>
      r.toast.text == (if reply.message != [] then reply.message else "Failed to verify OTP. Please try again.")
  {
    if IsSuccess(reply) then CallEnd(false, SuccessToast("OTP Verified successfully"))
    else match reply
      case Response(_, message) => CallEnd(false, ErrorToast(OrElse(message, "OTP verification failed")))
      case Failure(message) => CallEnd(false, ErrorToast(OrElse(message, "Failed to verify OTP. Please try again.")))
  }

  /** What a Verify press leads to. */
  datatype VerifyStep =
    | Ignored                                   // the code is not four characters long
    | OpenReset(email: String, otpCode: String, toast: Toast) // push the reset-password screen, after the call's toast
    | Stay(toast: Toast)                        // remain on this screen

  /**
   * `handleVerify` as written: after a four-character code, the screen navigates whenever
   * the awaited call returns normally. Since `verifyOtp` never throws, it navigates for
   * every server reply, even right after showing the error toast.
   */
  function HandleVerifyAsWritten(s: Screen, email: String, reply: ServerReply): (r: VerifyStep)
    ensures |Otp.Join(s.otp)| != 4 <==> r == Ignored
    ensures |Otp.Join(s.otp)| == 4 ==> r == OpenReset(email, Otp.Join(s.otp), VerifyOtp(reply).toast)
  {
    var code := Otp.Join(s.otp);
    if |code| != 4 then Ignored
    else
      var call := VerifyOtp(reply);
      if call.threw then Stay(call.toast) else OpenReset(email, code, call.toast)
  }

  /** A rejected code shows the server's error and still opens the reset-password screen. */
  lemma RejectedCodeStillNavigates(email: String)
    ensures
      var s := Otp.CodeScreen(["1", "2", "3", "4"], false);
      HandleVerifyAsWritten(s, email, Response(400, "Invalid OTP")) == OpenReset(email, "1234", ErrorToast("Invalid OTP"))
  {
    var s := Otp.CodeScreen(["1", "2", "3", "4"], false);
    assert Otp.Join(s.otp) == "1234" by {
      assert Otp.Join(s.otp[3..]) == "4";
      assert Otp.Join(s.otp[2..]) == "34";
      assert Otp.Join(s.otp[1..]) == "234";
    }
  }

  /**
   * `handleVerify` with the navigation made to depend on the server's verdict: the reset
   * screen opens, with the address and the code, exactly when the code was accepted;
   * otherwise the screen stays put with the error toast.
   */
  function HandleVerify(s: Screen, email: String, reply: ServerReply): (r: VerifyStep)
    ensures r == Ignored <==> |Otp.Join(s.otp)| != 4
    ensures r.OpenReset? <==> |Otp.Join(s.otp)| == 4 && IsSuccess(reply)
    ensures r.OpenReset? ==> r.email == email && r.otpCode == Otp.Join(s.otp)
    ensures r.OpenReset? ==> r.toast == SuccessToast("OTP Verified successfully")
    ensures r.Stay? ==> r.toast == VerifyOtp(reply).toast && r.toast.ErrorToast?
  {
    var code := Otp.Join(s.otp);
    if |code| != 4 then Ignored
    else
      var call := VerifyOtp(reply);
      if call.toast.SuccessToast? then OpenReset(email, code, call.toast) else Stay(call.toast)
  }

  /** On an accepted code the two versions agree; they differ exactly on rejected ones. */
  lemma CorrectedAgreesOnSuccess(s: Screen, email: String, reply: ServerReply)
    ensures IsSuccess(reply) ==> HandleVerify(s, email, reply) == HandleVerifyAsWritten(s, email, reply)
    ensures !IsSuccess(reply) && |Otp.Join(s.otp)| == 4 ==>
      HandleVerify(s, email, reply) != HandleVerifyAsWritten(s, email, reply)
  {
  }

  /** An enabled Verify button on well-formed boxes always gets past the length check. */
  lemma EnabledVerifyHasFullCode(s: Screen, email: String, reply: ServerReply)
    requires Otp.WellFormed(s.otp) && !Otp.VerifyDisabled(s)
    ensures HandleVerify(s, email, reply) != Ignored
  {
    Otp.FullIffFourCharacters(s.otp);
  }
}
