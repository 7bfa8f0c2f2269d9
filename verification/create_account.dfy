/**
 * The sign-up screen: a choice between email and phone, the field for the chosen method
 * (the phone preceded by a country's dial code), a terms box, and a submit button.
 */
module CreateAccount {
  import opened Options
  import opened JsText
  import opened CountryPicker
  import Validation

  /** `SignUpMethod`. */
  datatype Method = EmailMethod | PhoneMethod

  /** The countries the screen offers, Nigeria first. */
  const Countries: seq<Country> := [
    Country("NG", "Nigeria", "+234"),
    Country("US", "United States", "+1"),
    Country("GB", "United Kingdom", "+44"),
    Country("CA", "Canada", "+1"),
    Country("AU", "Australia", "+61"),
    Country("DE", "Germany", "+49"),
    Country("FR", "France", "+33"),
    Country("IN", "India", "+91"),
    Country("CN", "China", "+86"),
    Country("JP", "Japan", "+81"),
    Country("KR", "South Korea", "+82"),
    Country("BR", "Brazil", "+55"),
    Country("MX", "Mexico", "+52"),
    Country("ZA", "South Africa", "+27"),
    Country("EG", "Egypt", "+20"),
    Country("KE", "Kenya", "+254"),
    Country("GH", "Ghana", "+233"),
    Country("AE", "UAE", "+971"),
    Country("SA", "Saudi Arabia", "+966"),
    Country("TR", "Turkey", "+90")]

  /** The screen's state. */
  datatype Form = Form(
    signUpMethod: Method,
    email: String,
    phoneNumber: String,
    checked: bool,
    country: Country,
    showPicker: bool)

  /** Email chosen, fields empty, the box unticked, Nigeria selected, the list closed. */
  const InitialForm: Form := Form(EmailMethod, "", "", false, Countries[0], false)

  /** `isValidEmail`: the text contains an '@' and a '.', anywhere. */
  function IsValidEmail(email: String): (ok: bool)
    ensures ok <==> '@' in email && '.' in email
  {
    IncludesChar(email, '@');
    IncludesChar(email, '.');
    Includes(email, "@") && Includes(email, ".")
  }

  /** Every address the shared email validator accepts passes this looser check too. */
  lemma SharedValidatorIsStricter(email: String)
    requires Validation.ValidateEmail(email)
    ensures IsValidEmail(email)
  {
    Validation.ValidEmailStructure(email);
    var at :| 0 < at < |email| && email[at] == '@'
              && (forall j :: 0 <= j < |email| && j != at ==> email[j] != '@')
              && '.' in email[at + 2..|email| - 1];
    var k :| 0 <= k < |email[at + 2..|email| - 1]| && email[at + 2..|email| - 1][k] == '.';
    assert email[at + 2 + k] == '.';
  }

  /**
   * `isFormValid`: never while the box is unticked; otherwise the email passes
   * `isValidEmail`, or the phone number is not blank.
   */
  function IsFormValid(f: Form): (ok: bool)
    ensures !f.checked ==> !ok
    ensures f.checked && f.signUpMethod.EmailMethod? ==> (ok <==> '@' in f.email && '.' in f.email)
    ensures f.checked && f.signUpMethod.PhoneMethod? ==> (ok <==> !IsBlank(f.phoneNumber))
  {
    if !f.checked then false
    else match f.signUpMethod
      case EmailMethod => IsValidEmail(f.email)
      case PhoneMethod => !IsBlank(f.phoneNumber)
  }

  /** The value submitted: the email, or the dial code followed by the number. */
  function SubmitValue(f: Form): (v: String)
    ensures f.signUpMethod.EmailMethod? ==> v == f.email
    ensures f.signUpMethod.PhoneMethod? ==>
      (|v| == |f.country.dialCode| + |f.phoneNumber|
       && v[..|f.country.dialCode|] == f.country.dialCode
       && v[|f.country.dialCode|..] == f.phoneNumber)
  {
    match f.signUpMethod
    case EmailMethod => f.email
    case PhoneMethod => f.country.dialCode + f.phoneNumber
  }

  /** `handleSubmit`: `onSubmit` receives the method and the value when the value is not blank and the box is ticked. */
  function HandleSubmit(f: Form): (r: Option<(Method, String)>)
    ensures r.Some? <==> !IsBlank(SubmitValue(f)) && f.checked
    ensures r.Some? ==> r.value == (f.signUpMethod, SubmitValue(f))
  {
    var value := SubmitValue(f);
    if !IsBlank(value) && f.checked then Some((f.signUpMethod, value)) else None
  }

  /** Text with a non-space character is not blank. */
  lemma NotBlankAt(s: String, i: nat)
    requires i < |s| && !IsSpace(s[i])
    ensures !IsBlank(s)
  {
    BlankIffAllSpace(s);
  }

  /** An enabled button always reaches `onSubmit`. */
  lemma EnabledButtonSubmits(f: Form)
    requires IsFormValid(f)
    ensures HandleSubmit(f).Some?
  {
    var v := SubmitValue(f);
    if f.signUpMethod.EmailMethod? {
      var i :| 0 <= i < |f.email| && f.email[i] == '@';
      NotBlankAt(v, i);
    } else {
      PhoneValueNotBlank(f.country.dialCode, f.phoneNumber);
    }
  }

  /** A dial code followed by a non-blank number is not blank. */
  lemma PhoneValueNotBlank(dialCode: String, phone: String)
    requires !IsBlank(phone)
    ensures !IsBlank(dialCode + phone)
  {
    BlankIffAllSpace(phone);
    var i :| 0 <= i < |phone| && !IsSpace(phone[i]);
    assert (dialCode + phone)[|dialCode| + i] == phone[i];
    NotBlankAt(dialCode + phone, |dialCode| + i);
  }

  /** `selectCountry`: the country is set and the list closes; nothing else changes. */
  function SelectCountry(f: Form, c: Country): (r: Form)
    ensures r.country == c && !r.showPicker
    ensures r == f.(country := c, showPicker := false)
  {
    f.(country := c, showPicker := false)
  }

  /** The screen starts on Nigeria with +234, and a phone number is submitted with that code. */
  lemma DefaultCountryIsNigeria(phone: String)
    ensures InitialForm.country.code == "NG" && InitialForm.country.dialCode == "+234"
    ensures SubmitValue(InitialForm.(signUpMethod := PhoneMethod, phoneNumber := phone)) == "+234" + phone
  {
  }
}
