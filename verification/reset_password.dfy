/**
 * The reset-password screen: a new password and its confirmation, each with its own error
 * line. Reset checks both fields on every press and moves on only when neither has an error.
 */
module ResetPassword {
  import opened JsText

  /** `[A-Za-z\d@$!%*#?&]`: the characters a new password may use. */
  predicate IsPasswordChar(c: char) {
    IsLetter(c) || IsDigit(c) || c in "@$!%*#?&"
  }

  /**
   * This screen's own `validatePassword`, the pattern
   * `^(?=.*[A-Za-z])(?=.*\d)[A-Za-z\d@$!%*#?&]{8,}$`: at least eight characters, all from the
   * allowed set, with a letter and a digit among them. (Every allowed character is matched
   * by `.`, so the look-aheads only ask that a letter and a digit occur.)
   */
  function ValidatePassword(password: String): (ok: bool)
    ensures ok <==>
      && |password| >= 8
      && (forall i :: 0 <= i < |password| ==> IsPasswordChar(password[i]))
      && (exists i :: 0 <= i < |password| && IsLetter(password[i]))
      && (exists i :: 0 <= i < |password| && IsDigit(password[i]))
  {
    |password| >= 8 && AllChars(password, IsPasswordChar)
    && AnyChar(password, IsLetter) && AnyChar(password, IsDigit)
  }

  /** A password the pattern accepts has no whitespace, so it is never blank. */
  lemma ValidPasswordIsNotBlank(password: String)
    requires ValidatePassword(password)
    ensures !IsBlank(password) && Trim(password) == password
  {
    assert forall i :: 0 <= i < |password| ==> !IsSpace(password[i]) by {
      forall i | 0 <= i < |password| ensures !IsSpace(password[i]) {
        assert IsPasswordChar(password[i]);
      }
    }
    TrimWithoutSpace(password);
  }

  const PasswordRequired: String := "Password is required"
  const PasswordFormat: String := "Password must be at least 8 characters with letters and numbers"
  const ConfirmRequired: String := "Please confirm your password"
  const PasswordsDiffer: String := "Passwords do not match"

  /** The screen's fields and error lines; an empty error line shows nothing. */
  datatype Form = Form(newPassword: String, confirmPassword: String, newError: String, confirmError: String)

  /** `handleNewPasswordChange`: the text is stored and only the new password's error is cleared. */
  function NewPasswordChange(f: Form, text: String): (r: Form)
    ensures r.newPassword == text && r.newError == []
    ensures r.confirmPassword == f.confirmPassword && r.confirmError == f.confirmError
  {
    f.(newPassword := text, newError := if f.newError != [] then [] else f.newError)
  }

  /** `handleConfirmPasswordChange`: the text is stored and only the confirmation's error is cleared. */
  function ConfirmPasswordChange(f: Form, text: String): (r: Form)
    ensures r.confirmPassword == text && r.confirmError == []
    ensures r.newPassword == f.newPassword && r.newError == f.newError
  {
    f.(confirmPassword := text, confirmError := if f.confirmError != [] then [] else f.confirmError)
  }

  /** The new password's check: "required" when blank, the format message when the pattern fails. */
  function NewPasswordError(password: String): (e: String)
    ensures e == PasswordRequired <==> IsBlank(password)
    ensures e == PasswordFormat <==> !IsBlank(password) && !ValidatePassword(password)
    ensures e == [] <==> ValidatePassword(password)
  {
    if IsBlank(password) then PasswordRequired
    else if !ValidatePassword(password) then PasswordFormat
    else []
  }

  /** The confirmation's check: "required" when blank, "do not match" when it differs. */
  function ConfirmError(password: String, confirm: String): (e: String)
    ensures e == ConfirmRequired <==> IsBlank(confirm)
    ensures e == PasswordsDiffer <==> !IsBlank(confirm) && confirm != password
    ensures e == [] <==> !IsBlank(confirm) && confirm == password
  {
    if IsBlank(confirm) then ConfirmRequired
    else if password != confirm then PasswordsDiffer
    else []
  }

  /** What a Reset press did: the form afterwards and whether the screen moved on. */
  datatype Outcome = Outcome(form: Form, proceeds: bool)

  /**
   * `handleResetPassword`: both checks run on every press, so both error lines can be set at
   * once; a check that passes leaves its line as it was. The screen moves on exactly when
   * neither check fails.
   */
  function HandleReset(f: Form): (r: Outcome)
    ensures NewPasswordError(f.newPassword) != [] ==> r.form.newError == NewPasswordError(f.newPassword)
    ensures NewPasswordError(f.newPassword) == [] ==> r.form.newError == f.newError
    ensures ConfirmError(f.newPassword, f.confirmPassword) != [] ==>
      r.form.confirmError == ConfirmError(f.newPassword, f.confirmPassword)
    ensures ConfirmError(f.newPassword, f.confirmPassword) == [] ==> r.form.confirmError == f.confirmError
    ensures r.proceeds <==> ValidatePassword(f.newPassword) && f.confirmPassword == f.newPassword
    ensures r.form.newPassword == f.newPassword && r.form.confirmPassword == f.confirmPassword
  {
    var newError := NewPasswordError(f.newPassword);
    var confirmError := ConfirmError(f.newPassword, f.confirmPassword);
    var g := f.(newError := if newError != [] then newError else f.newError,
                confirmError := if confirmError != [] then confirmError else f.confirmError);
    var proceeds := newError == [] && confirmError == [];
    assert proceeds <==> ValidatePassword(f.newPassword) && f.confirmPassword == f.newPassword by {
      if ValidatePassword(f.newPassword) {
        ValidPasswordIsNotBlank(f.newPassword);
      }
    }
    Outcome(g, proceeds)
  }

  /** `isResetDisabled`. */
  function ResetDisabled(f: Form): (disabled: bool)
    ensures !disabled <==>
      !IsBlank(f.newPassword) && !IsBlank(f.confirmPassword)
      && f.newPassword == f.confirmPassword && ValidatePassword(f.newPassword)
  {
    IsBlank(f.newPassword) || IsBlank(f.confirmPassword)
    || f.newPassword != f.confirmPassword || !ValidatePassword(f.newPassword)
  }

  /** The button is enabled exactly when a press would move on. */
  lemma EnabledIffProceeds(f: Form)
    ensures !ResetDisabled(f) <==> HandleReset(f).proceeds
  {
    if ValidatePassword(f.newPassword) {
      ValidPasswordIsNotBlank(f.newPassword);
    }
  }

  /** A press that does not move on always leaves an error line to read. */
  lemma BlockedPressExplains(f: Form)
    requires !HandleReset(f).proceeds
    ensures HandleReset(f).form.newError != [] || HandleReset(f).form.confirmError != []
  {
    if ValidatePassword(f.newPassword) {
      ValidPasswordIsNotBlank(f.newPassword);
    }
  }
}
