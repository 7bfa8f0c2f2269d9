/**
 * The shared form validators (`app/utils/validation.ts`): email, password, Nigerian phone
 * number and name predicates, and the sign-up and login form validators that turn them
 * into per-field error messages.
 */
module Validation {
  import opened Options
  import opened JsText

  // ---------------------------------------------------------------------------
  // Email: /^[^\s@]+@[^\s@]+\.[^\s@]+$/
  // ---------------------------------------------------------------------------

  /** `[^\s@]`: a character allowed inside each of the three parts of an email address. */
  predicate IsEmailChar(c: char) {
    !IsSpace(c) && c != '@'
  }

  /**
   * The email pattern read as a decomposition of `s`: a local part, the `@` at `at`, a first
   * domain part, the `.` at `dot`, and a last domain part, each non-empty and free of
   * whitespace and `@`.
   */
  ghost predicate EmailShape(s: String, at: int, dot: int) {
    && 0 < at && at + 1 < dot && dot + 1 < |s|
    && s[at] == '@' && s[dot] == '.'
    && AllChars(s[..at], IsEmailChar)
    && AllChars(s[at + 1..dot], IsEmailChar)
    && AllChars(s[dot + 1..], IsEmailChar)
  }

  /** `s` matches the email regular expression. */
  ghost predicate MatchesEmailPattern(s: String) {
    exists at, dot :: EmailShape(s, at, dot)
  }

  /** The left-to-right scan the validator performs: split at the first `@`, then inspect the domain. */
  predicate EmailScan(email: String) {
    match IndexOf(email, '@')
    case None => false
    case Some(at) =>
      var domain := email[at + 1..];
      && at > 0
      && AllChars(email[..at], IsEmailChar)
      && AllChars(domain, IsEmailChar)
      && |domain| >= 3
      && AnyChar(domain[1..|domain| - 1], IsDot)
  }

  predicate IsDot(c: char) { c == '.' }

  /** A slice of an all-`p` string is all-`p`. */
  lemma AllCharsSlice(s: String, p: char -> bool, a: int, b: int)
    requires 0 <= a <= b <= |s| && AllChars(s, p)
    ensures AllChars(s[a..b], p)
  {
    assert forall k :: 0 <= k < b - a ==> s[a..b][k] == s[a + k];
  }

  lemma ScanGivesPattern(email: String)
    requires EmailScan(email)
    ensures MatchesEmailPattern(email)
  {
    var at := IndexOf(email, '@').value;
    var domain := email[at + 1..];
    var mid := domain[1..|domain| - 1];
    assert AnyChar(mid, IsDot);
    var i :| 0 <= i < |mid| && IsDot(mid[i]);
    var dot := at + 2 + i;
    assert email[dot] == '.' by {
      assert mid[i] == domain[i + 1] == email[dot];
    }
    assert AllChars(email[at + 1..dot], IsEmailChar) by {
      AllCharsSlice(domain, IsEmailChar, 0, i + 1);
      assert email[at + 1..dot] == domain[..i + 1];
    }
    assert AllChars(email[dot + 1..], IsEmailChar) by {
      AllCharsSlice(domain, IsEmailChar, i + 2, |domain|);
      assert email[dot + 1..] == domain[i + 2..];
    }
    assert EmailShape(email, at, dot);
  }

  /** The text after the '@' of a matching address holds no whitespace and no '@'. */
  lemma DomainHasEmailChars(email: String, at: int, dot: int)
    requires EmailShape(email, at, dot)
    ensures AllChars(email[at + 1..], IsEmailChar)
  {
    var domain := email[at + 1..];
    forall k | 0 <= k < |domain|
      ensures IsEmailChar(domain[k])
    {
      if at + 1 + k < dot {
        assert domain[k] == email[at + 1..dot][k];
      } else if at + 1 + k > dot {
        assert domain[k] == email[dot + 1..][at + k - dot];
      } else {
        assert domain[k] == '.';
      }
    }
  }

  lemma PatternGivesScan(email: String)
    requires MatchesEmailPattern(email)
    ensures EmailScan(email)
  {
    var at, dot :| EmailShape(email, at, dot);
    assert IndexOf(email, '@') == Some(at) by {
      assert '@' !in email[..at];
      IndexOfIsFirst(email, '@', at);
    }
    DomainHasEmailChars(email, at, dot);
    var domain := email[at + 1..];
    assert AnyChar(domain[1..|domain| - 1], IsDot) by {
      assert domain[1..|domain| - 1][dot - at - 2] == email[dot];
    }
  }

  lemma EmailScanIsPattern(email: String)
    ensures EmailScan(email) <==> MatchesEmailPattern(email)
  {
    if EmailScan(email) {
      ScanGivesPattern(email);
    }
    if MatchesEmailPattern(email) {
      PatternGivesScan(email);
    }
  }

  /** `validateEmail`: accepts exactly the strings the email regular expression matches. */
  function ValidateEmail(email: String): (r: bool)
    ensures r <==> MatchesEmailPattern(email)
  {
    EmailScanIsPattern(email);
    EmailScan(email)
  }

  /** An accepted email has exactly one `@`, no whitespace, and a `.` strictly inside its domain. */
  lemma ValidEmailStructure(email: String)
    requires ValidateEmail(email)
    ensures forall i :: 0 <= i < |email| ==> !IsSpace(email[i])
    ensures exists at :: 0 < at < |email| && email[at] == '@'
                         && (forall j :: 0 <= j < |email| && j != at ==> email[j] != '@')
                         && '.' in email[at + 2..|email| - 1]
  {
    var at, dot :| EmailShape(email, at, dot);
    forall i | 0 <= i < |email|
      ensures !IsSpace(email[i]) && (i != at ==> email[i] != '@')
    {
      if i < at {
        assert email[..at][i] == email[i];
      } else if at < i < dot {
        assert email[at + 1..dot][i - at - 1] == email[i];
      } else if dot < i {
        assert email[dot + 1..][i - dot - 1] == email[i];
      }
    }
    assert email[at + 2..|email| - 1][dot - at - 2] == '.';
  }

  /** An accepted email is never blank, so "required" and "invalid" never both apply. */
  lemma ValidEmailIsNotBlank(email: String)
    ensures ValidateEmail(email) ==> !IsBlank(email)
  {
    if ValidateEmail(email) {
      ValidEmailStructure(email);
      BlankIffAllSpace(email);
    }
  }

  // ---------------------------------------------------------------------------
  // Password
  // ---------------------------------------------------------------------------

  const PasswordTooShort: String := "Password must be at least 8 characters long"
  const PasswordNoLowercase: String := "Password must contain at least one lowercase letter"
  const PasswordNoUppercase: String := "Password must contain at least one uppercase letter"
  const PasswordNoNumber: String := "Password must contain at least one number"

  /**
   * `validatePassword`: no message when the password is long enough and contains a lowercase
   * letter, an uppercase letter and a digit; otherwise the message of the FIRST failing check
   * in the order length, lowercase, uppercase, digit.
   */
  function ValidatePassword(password: String): (r: Option<String>)
    ensures r.None? <==>
      && |password| >= 8
      && (exists i :: 0 <= i < |password| && IsLower(password[i]))
      && (exists i :: 0 <= i < |password| && IsUpper(password[i]))
      && (exists i :: 0 <= i < |password| && IsDigit(password[i]))
    ensures || r == None || r == Some(PasswordTooShort) || r == Some(PasswordNoLowercase)
            || r == Some(PasswordNoUppercase) || r == Some(PasswordNoNumber)
    ensures r == Some(PasswordTooShort) <==> |password| < 8
    ensures r == Some(PasswordNoLowercase) <==>
      |password| >= 8 && forall i :: 0 <= i < |password| ==> !IsLower(password[i])
    ensures r == Some(PasswordNoUppercase) <==>
      && |password| >= 8
      && (exists i :: 0 <= i < |password| && IsLower(password[i]))
      && (forall i :: 0 <= i < |password| ==> !IsUpper(password[i]))
    ensures r == Some(PasswordNoNumber) <==>
      && |password| >= 8
      && (exists i :: 0 <= i < |password| && IsLower(password[i]))
      && (exists i :: 0 <= i < |password| && IsUpper(password[i]))
      && (forall i :: 0 <= i < |password| ==> !IsDigit(password[i]))
  {
    if |password| < 8 then Some(PasswordTooShort)
    else if !AnyChar(password, IsLower) then Some(PasswordNoLowercase)
    else if !AnyChar(password, IsUpper) then Some(PasswordNoUppercase)
    else if !AnyChar(password, IsDigit) then Some(PasswordNoNumber)
    else None
  }

  // ---------------------------------------------------------------------------
  // Phone number: /^\+234[7-9][0-1]\d{8}$/
  // ---------------------------------------------------------------------------

  /** The phone pattern as one character class per position, anchored at both ends. */
  function PhonePattern(): seq<char -> bool> {
    [c => c == '+', c => c == '2', c => c == '3', c => c == '4',
     c => '7' <= c <= '9', c => '0' <= c <= '1']
    + seq(8, _ => IsDigit)
  }

  /** `s` has one character per class of `pattern`, each in its class. */
  predicate MatchesClasses(s: String, pattern: seq<char -> bool>) {
    |s| == |pattern| && forall i :: 0 <= i < |s| ==> pattern[i](s[i])
  }

  /**
   * `validatePhoneNumber`: exactly `+234`, then 7, 8 or 9, then 0 or 1, then eight digits:
   * fourteen characters in all.
   */
  function ValidatePhoneNumber(phone: String): (r: bool)
    ensures r <==>
      && |phone| == 14 && phone[..4] == "+234"
      && '7' <= phone[4] <= '9' && '0' <= phone[5] <= '1'
      && forall i :: 6 <= i < 14 ==> IsDigit(phone[i])
  {
    PhonePatternMeaning(phone);
    MatchesClasses(phone, PhonePattern())
  }

  lemma PhonePatternMeaning(phone: String)
    ensures MatchesClasses(phone, PhonePattern()) <==>
      && |phone| == 14 && phone[..4] == "+234"
      && '7' <= phone[4] <= '9' && '0' <= phone[5] <= '1'
      && forall i :: 6 <= i < 14 ==> IsDigit(phone[i])
  {
    var pattern := PhonePattern();
    if |phone| == 14 {
      assert pattern[0](phone[0]) == (phone[0] == '+');
      assert pattern[1](phone[1]) == (phone[1] == '2');
      assert pattern[2](phone[2]) == (phone[2] == '3');
      assert pattern[3](phone[3]) == (phone[3] == '4');
      assert forall i :: 6 <= i < 14 ==> pattern[i](phone[i]) == IsDigit(phone[i]);
      if phone[..4] == "+234" {
        assert phone[0] == '+' && phone[1] == '2' && phone[2] == '3' && phone[3] == '4';
      }
    }
  }

  /** An accepted phone number starts with `+`, so it is never blank. */
  lemma ValidPhoneIsNotBlank(phone: String)
    ensures ValidatePhoneNumber(phone) ==> !IsBlank(phone)
  {
    if ValidatePhoneNumber(phone) {
      assert phone[0] == phone[..4][0];
      assert !IsSpace(phone[0]);
      BlankIffAllSpace(phone);
    }
  }

  // ---------------------------------------------------------------------------
  // Name
  // ---------------------------------------------------------------------------

  /** `validateName`: at least two characters once surrounding whitespace is trimmed. */
  predicate ValidateName(name: String) {
    |Trim(name)| >= 2
  }

  /**
   * A name passes exactly when it holds two non-whitespace characters at different
   * places; so a valid name is never blank.
   */
  lemma NameMeaning(name: String)
    ensures ValidateName(name) <==>
      exists i, j :: 0 <= i < j < |name| && !IsSpace(name[i]) && !IsSpace(name[j])
    ensures ValidateName(name) ==> !IsBlank(name)
  {
    if ValidateName(name) {
      ValidNameHasTwoNonSpaces(name);
    }
    forall i, j | 0 <= i < j < |name| && !IsSpace(name[i]) && !IsSpace(name[j])
      ensures ValidateName(name)
    {
      TwoNonSpacesMakeValidName(name, i, j);
    }
  }

  /** The first and last characters of a trim of length two or more are the witnesses. */
  lemma ValidNameHasTwoNonSpaces(name: String)
    requires ValidateName(name)
    ensures exists i, j :: 0 <= i < j < |name| && !IsSpace(name[i]) && !IsSpace(name[j])
  {
    var t := Trim(name);
    var a :| SlicedFrom(name, t, a);
    TrimEndsAreNonSpaces(name, t, a);
    var i, j := a, a + |t| - 1;
    assert 0 <= i < j < |name| && !IsSpace(name[i]) && !IsSpace(name[j]);
  }

  /** The first and last characters of a non-empty trim sit in the text at its ends. */
  lemma TrimEndsAreNonSpaces(s: String, t: String, a: int)
    requires SlicedFrom(s, t, a) && |t| >= 2
    requires !IsSpace(t[0]) && !IsSpace(t[|t| - 1])
    ensures 0 <= a < a + |t| - 1 < |s| && !IsSpace(s[a]) && !IsSpace(s[a + |t| - 1])
  {
    assert s[a] == t[0] && s[a + |t| - 1] == t[|t| - 1];
  }

  /** Two non-whitespace characters both survive the trim. */
  lemma TwoNonSpacesMakeValidName(name: String, i: int, j: int)
    requires 0 <= i < j < |name| && !IsSpace(name[i]) && !IsSpace(name[j])
    ensures ValidateName(name)
  {
    var t := Trim(name);
    var a :| SlicedFrom(name, t, a);
    NonSpaceInsideTrim(name, t, a, i);
    NonSpaceInsideTrim(name, t, a, j);
  }

  /** A non-whitespace character of `s` lies inside its trimmed slice. */
  lemma NonSpaceInsideTrim(s: String, t: String, a: int, i: int)
    requires SlicedFrom(s, t, a) && 0 <= i < |s| && !IsSpace(s[i])
    ensures a <= i < a + |t|
  {
  }

  // ---------------------------------------------------------------------------
  // Sign-up form
  // ---------------------------------------------------------------------------

  const FirstNameRequired: String := "First name is required"
  const FirstNameTooShort: String := "First name must be at least 2 characters"
  const LastNameRequired: String := "Last name is required"
  const LastNameTooShort: String := "Last name must be at least 2 characters"
  const EmailRequired: String := "Email is required"
  const EmailInvalid: String := "Please enter a valid email address"
  const PhoneRequired: String := "Phone number is required"
  const PhoneInvalid: String := "Please enter a valid Nigerian phone number (+234XXXXXXXXXX)"
  const PasswordRequired: String := "Password is required"
  const ConfirmRequired: String := "Please confirm your password"
  const PasswordsDiffer: String := "Passwords do not match"

  datatype SignupInput = SignupInput(
    firstName: String, lastName: String, email: String,
    phoneNumber: String, password: String, confirmPassword: String)

  /** `ValidationErrors`: an absent key is `None`. */
  datatype SignupErrors = SignupErrors(
    firstName: Option<String>, lastName: Option<String>, email: Option<String>,
    phoneNumber: Option<String>, password: Option<String>, confirmPassword: Option<String>)

  /** The required-then-format rule shared by the text fields. */
  function RequiredThenValid(blank: bool, valid: bool, required: String, invalid: String): (r: Option<String>)
    requires required != invalid
    ensures r == Some(required) <==> blank
    ensures r == Some(invalid) <==> !blank && !valid
    ensures r.None? <==> !blank && valid
  {
    if blank then Some(required) else if !valid then Some(invalid) else None
  }

  /** The email rule shared by sign-up and login: "required" when blank, then the format check. */
  function EmailError(email: String): (r: Option<String>)
    ensures r == Some(EmailRequired) <==> IsBlank(email)
    ensures r == Some(EmailInvalid) <==> !IsBlank(email) && !ValidateEmail(email)
    ensures r.None? <==> ValidateEmail(email)
    ensures r.None? || r == Some(EmailRequired) || r == Some(EmailInvalid)
  {
    ValidEmailIsNotBlank(email);
    RequiredThenValid(IsBlank(email), ValidateEmail(email), EmailRequired, EmailInvalid)
  }

  /** The sign-up password rule: "required" when empty, otherwise the strength verdict. */
  function PasswordError(password: String): (r: Option<String>)
    ensures r == Some(PasswordRequired) <==> password == []
    ensures password != [] ==> r == ValidatePassword(password)
    ensures r.None? <==> ValidatePassword(password).None?
  {
    if password == [] then Some(PasswordRequired) else ValidatePassword(password)
  }

  /** The confirmation rule: "required" when empty, "do not match" when it differs. */
  function ConfirmError(password: String, confirm: String): (r: Option<String>)
    ensures r == Some(ConfirmRequired) <==> confirm == []
    ensures r == Some(PasswordsDiffer) <==> confirm != [] && confirm != password
    ensures r.None? <==> confirm != [] && confirm == password
  {
    if confirm == [] then Some(ConfirmRequired)
    else if password != confirm then Some(PasswordsDiffer)
    else None
  }

  /**
   * `validateSignupForm`. Each field gets "required" when blank, otherwise its format message
   * when it fails its validator, otherwise no entry. The confirmation is "required" when
   * empty and "do not match" exactly when it is non-empty and differs from the password,
   * whatever the password's strength.
   */
  function ValidateSignupForm(input: SignupInput): (r: SignupErrors)
    ensures r.firstName == Some(FirstNameRequired) <==> IsBlank(input.firstName)
    ensures r.firstName == Some(FirstNameTooShort) <==>
      !IsBlank(input.firstName) && !ValidateName(input.firstName)
    ensures r.firstName.None? <==> ValidateName(input.firstName)
    ensures r.lastName == Some(LastNameRequired) <==> IsBlank(input.lastName)
    ensures r.lastName == Some(LastNameTooShort) <==>
      !IsBlank(input.lastName) && !ValidateName(input.lastName)
    ensures r.lastName.None? <==> ValidateName(input.lastName)
    ensures r.email == Some(EmailRequired) <==> IsBlank(input.email)
    ensures r.email == Some(EmailInvalid) <==> !IsBlank(input.email) && !ValidateEmail(input.email)
    ensures r.email.None? <==> ValidateEmail(input.email)
    ensures r.phoneNumber == Some(PhoneRequired) <==> IsBlank(input.phoneNumber)
    ensures r.phoneNumber == Some(PhoneInvalid) <==>
      !IsBlank(input.phoneNumber) && !ValidatePhoneNumber(input.phoneNumber)
    ensures r.phoneNumber.None? <==> ValidatePhoneNumber(input.phoneNumber)
    ensures r.password == Some(PasswordRequired) <==> input.password == []
    ensures input.password != [] ==> r.password == ValidatePassword(input.password)
    ensures r.password.None? <==> ValidatePassword(input.password).None?
    ensures r.confirmPassword == Some(ConfirmRequired) <==> input.confirmPassword == []
    ensures r.confirmPassword == Some(PasswordsDiffer) <==>
      input.confirmPassword != [] && input.confirmPassword != input.password
    ensures r.confirmPassword.None? <==> input.confirmPassword != [] && input.confirmPassword == input.password
  {
    ValidPhoneIsNotBlank(input.phoneNumber);
    SignupErrors(
      firstName := RequiredThenValid(IsBlank(input.firstName), ValidateName(input.firstName),
                                     FirstNameRequired, FirstNameTooShort),
      lastName := RequiredThenValid(IsBlank(input.lastName), ValidateName(input.lastName),
                                    LastNameRequired, LastNameTooShort),
      email := EmailError(input.email),
      phoneNumber := RequiredThenValid(IsBlank(input.phoneNumber), ValidatePhoneNumber(input.phoneNumber),
                                       PhoneRequired, PhoneInvalid),
      password := PasswordError(input.password),
      confirmPassword := ConfirmError(input.password, input.confirmPassword))
  }

  /** Each error key depends only on its own field; the confirmation also on the password. */
  lemma SignupFieldsIndependent(a: SignupInput, b: SignupInput)
    ensures a.firstName == b.firstName ==> ValidateSignupForm(a).firstName == ValidateSignupForm(b).firstName
    ensures a.lastName == b.lastName ==> ValidateSignupForm(a).lastName == ValidateSignupForm(b).lastName
    ensures a.email == b.email ==> ValidateSignupForm(a).email == ValidateSignupForm(b).email
    ensures a.phoneNumber == b.phoneNumber ==>
      ValidateSignupForm(a).phoneNumber == ValidateSignupForm(b).phoneNumber
    ensures a.password == b.password ==> ValidateSignupForm(a).password == ValidateSignupForm(b).password
    ensures a.password == b.password && a.confirmPassword == b.confirmPassword ==>
      ValidateSignupForm(a).confirmPassword == ValidateSignupForm(b).confirmPassword
  {
  }

  /** Every field that passes gets no entry: a fully valid input yields no errors at all. */
  lemma SignupAllValidHasNoErrors(input: SignupInput)
    requires ValidateName(input.firstName) && ValidateName(input.lastName)
    requires ValidateEmail(input.email) && ValidatePhoneNumber(input.phoneNumber)
    requires ValidatePassword(input.password).None?
    requires input.confirmPassword == input.password
    ensures ValidateSignupForm(input) == SignupErrors(None, None, None, None, None, None)
  {
  }

  // ---------------------------------------------------------------------------
  // Login form
  // ---------------------------------------------------------------------------

  /** The `{ email?, password? }` object of the login validator. */
  datatype LoginErrors = LoginErrors(email: Option<String>, password: Option<String>) {
    /** `Object.keys(errors).length > 0` */
    predicate HasAny() {
      email.Some? || password.Some?
    }
  }

  /**
   * `validateLoginForm`: "Email is required" for a blank email, taking precedence over the
   * format message; "Password is required" for an empty password. There are no errors iff
   * the email is valid (and so non-blank) and the password non-empty.
   */
  function ValidateLoginForm(email: String, password: String): (r: LoginErrors)
    ensures r.email == Some(EmailRequired) <==> IsBlank(email)
    ensures r.email == Some(EmailInvalid) <==> !IsBlank(email) && !ValidateEmail(email)
    ensures r.password == Some(PasswordRequired) <==> password == []
    ensures r.email.None? || r.email == Some(EmailRequired) || r.email == Some(EmailInvalid)
    ensures r.password.None? || r.password == Some(PasswordRequired)
    ensures !r.HasAny() <==> ValidateEmail(email) && password != []
  {
    LoginErrors(
      email := EmailError(email),
      password := if password == [] then Some(PasswordRequired) else None)
  }
}
