/**
 * The profile step of onboarding: phone, username and bio inputs pushed up to the wizard,
 * an optional photo, and an OTP modal that gates moving on. Also the bio's word counter.
 */
module CompleteProfile {
  import opened Options
  import opened JsText
  import opened ImagePicker
  import Otp
  import PostButton

  /** `Profile`; `photo` is optional. */
  datatype Profile = Profile(phoneNumber: String, username: String, bio: String, photo: Option<String>)

  /** The profile the wizard starts with. */
  const EmptyProfile: Profile := Profile("", "", "", None)

  /** Whether a photo is shown: `profile.photo` is truthy. */
  predicate HasPhoto(p: Profile) {
    p.photo.Some? && p.photo.value != []
  }

  /**
   * The effect that runs whenever an input changes: the wizard receives the profile with
   * phone, username and bio replaced by the inputs' texts and the photo kept.
   */
  function MergeInputs(p: Profile, phone: String, userName: String, bio: String): (r: Profile)
    ensures r.phoneNumber == phone && r.username == userName && r.bio == bio
    ensures r.photo == p.photo
  {
    p.(phoneNumber := phone, username := userName, bio := bio)
  }

  /** Pushing the inputs twice is the same as pushing them once. */
  lemma MergeIdempotent(p: Profile, phone: String, userName: String, bio: String)
    ensures MergeInputs(MergeInputs(p, phone, userName, bio), phone, userName, bio)
         == MergeInputs(p, phone, userName, bio)
  {
  }

  /** The `onUpdate` call an upload made, if any, and the alert it raised, if any. */
  datatype Upload = Upload(update: Option<Profile>, alert: Option<String>)

  /**
   * `handlePhotoUpload` after the picker returns: the first asset's uri becomes the photo;
   * a cancel or an empty pick does nothing, and a failure raises the alert.
   */
  function UploadPhoto(p: Profile, res: PickerResult): (r: Upload)
    ensures r.update.Some? <==> HasAsset(res)
    ensures r.update.Some? ==> r.update.value == p.(photo := Some(res.uris[0]))
    ensures r.alert.Some? <==> res.PickerFailed?
    ensures r.alert.Some? ==> r.alert.value == PickFailedAlert
  {
    match res
    case Picked(uris) => Upload(if |uris| > 0 then Some(p.(photo := Some(uris[0]))) else None, None)
    case Canceled => Upload(None, None)
    case PickerFailed => Upload(None, Some(PickFailedAlert))
  }

  /** The remove button on a shown photo: the photo becomes `''` and nothing else changes. */
  function RemovePhoto(p: Profile): (r: Profile)
    ensures !HasPhoto(r)
    ensures r.phoneNumber == p.phoneNumber && r.username == p.username && r.bio == p.bio
  {
    p.(photo := Some(""))
  }

  /** Removing an uploaded photo hides it again; the texts are untouched throughout. */
  lemma UploadThenRemove(p: Profile, uri: String)
    requires uri != []
    ensures HasPhoto(UploadPhoto(p, Picked([uri])).update.value)
    ensures RemovePhoto(UploadPhoto(p, Picked([uri])).update.value) == p.(photo := Some(""))
  {
  }

  /** The step's local state. */
  datatype Step = Step(showOtp: bool, otp: seq<String>, phone: String)

  const InitialStep: Step := Step(false, Otp.EmptyOtp, "")

  /** `isFormValid`: the phone input is not blank. */
  function IsFormValid(phone: String): (ok: bool)
    ensures ok <==> exists i :: 0 <= i < |phone| && !IsSpace(phone[i])
  {
    BlankIffAllSpace(phone);
    !IsBlank(phone)
  }

  /** What a press did: the new state, whether `onContinue` was called, and any alert. */
  datatype Outcome = Outcome(step: Step, continued: bool, alert: Option<String>)

  const InvalidOtpAlert: String := "Please enter a valid 4 digit-OTP"

  /** Continue: when enabled it only opens the OTP modal; it never calls `onContinue`. */
  function PressContinue(s: Step): (r: Outcome)
    ensures !r.continued && r.alert.None?
    ensures r.step.showOtp <==> s.showOtp || IsFormValid(s.phone)
    ensures r.step.otp == s.otp && r.step.phone == s.phone
  {
    if PostButton.Fires(!IsFormValid(s.phone), false) then Outcome(s.(showOtp := true), false, None)
    else Outcome(s, false, None)
  }

  /** A forwarded keystroke from the modal: only box `index` changes. */
  function OtpChange(s: Step, value: String, index: nat): (r: Step)
    requires index < |s.otp|
    ensures r.otp == Otp.SetSlot(s.otp, index, value)
    ensures r.showOtp == s.showOtp && r.phone == s.phone
  {
    s.(otp := Otp.SetSlot(s.otp, index, value))
  }

  /**
   * `handleVerify`: a four-character code closes the modal and continues; anything else
   * raises the alert and leaves the modal as it was.
   */
  function Verify(s: Step): (r: Outcome)
    ensures r.continued <==> |Otp.Join(s.otp)| == 4
    ensures r.continued ==> !r.step.showOtp && r.alert.None?
    ensures !r.continued ==> r.step == s && r.alert == Some(InvalidOtpAlert)
    ensures r.step.otp == s.otp && r.step.phone == s.phone
  {
    if |Otp.Join(s.otp)| == 4 then Outcome(s.(showOtp := false), true, None)
    else Outcome(s, false, Some(InvalidOtpAlert))
  }

  /** The modal's close button. */
  function CloseModal(s: Step): (r: Step)
    ensures !r.showOtp && r.otp == s.otp && r.phone == s.phone
  {
    s.(showOtp := false)
  }

  /** A user action on the step. */
  datatype Action =
    | TypePhone(text: String)
    | Continue
    | Key(value: String, index: nat)
    | VerifyPress
    | Close

  /** One action; keystrokes reach the boxes only through the modal's filter. */
  function Apply(s: Step, a: Action): Outcome
  {
    match a
    case TypePhone(text) => Outcome(s.(phone := text), false, None)
    case Continue => PressContinue(s)
    case Key(value, index) =>
      if index < |s.otp| && Otp.ModalFilter(value, index).Some? then Outcome(OtpChange(s, value, index), false, None)
      else Outcome(s, false, None)
    case VerifyPress => Verify(s)
    case Close => Outcome(CloseModal(s), false, None)
  }

  /**
   * `onContinue` is reached only by a Verify press with every box filled: with the boxes
   * kept well formed by the modal's filter, a call to `onContinue` means four digits.
   */
  lemma ContinueOnlyThroughVerify(s: Step, a: Action)
    requires Otp.WellFormed(s.otp)
    ensures Apply(s, a).continued ==> a.VerifyPress? && !Otp.AnyEmpty(s.otp)
    ensures Otp.WellFormed(Apply(s, a).step.otp)
  {
    Otp.FullIffFourCharacters(s.otp);
    if a.Key? && a.index < |s.otp| && Otp.ModalFilter(a.value, a.index).Some? {
      Otp.SetSlotKeepsWellFormed(s.otp, a.index, a.value);
    }
  }

  // ---------------------------------------------------------------------------
  // Bio word counter: `bio.trim() === '' ? 0 : bio.trim().split(/\s+/).length`
  // ---------------------------------------------------------------------------

  /**
   * `s.split(/\s+/)`, with `current` the piece being built: every maximal run of
   * whitespace ends a piece.
   */
  function SplitFrom(s: String, current: String): (pieces: seq<String>)
    ensures |pieces| >= 1
    decreases |s|
  {
    if s == [] then [current]
    else if IsSpace(s[0]) then [current] + SplitFrom(TrimStart(s[1..]), [])
    else SplitFrom(s[1..], current + [s[0]])
  }

  function SplitOnWhitespace(s: String): seq<String> {
    SplitFrom(s, [])
  }

  /** The counter under the bio. */
  function WordCount(bio: String): (n: nat)
    ensures n == 0 <==> IsBlank(bio)
  {
    if Trim(bio) == [] then 0 else |SplitOnWhitespace(Trim(bio))|
  }

  predicate NotSpace(c: char) { !IsSpace(c) }

  /**
   * The number of maximal runs of characters satisfying `p`, where `inRun` says whether
   * the character before `s` already belonged to such a run.
   */
  function Runs(s: String, p: char -> bool, inRun: bool): nat
    decreases |s|
  {
    if s == [] then 0
    else if p(s[0]) then (if inRun then 0 else 1) + Runs(s[1..], p, true)
    else Runs(s[1..], p, false)
  }

  /** The number of words: maximal runs of non-whitespace characters. */
  function Words(s: String): nat {
    Runs(s, NotSpace, false)
  }

  /** Leading whitespace holds no word. */
  lemma {:induction false} LeadingSpaceHoldsNoWord(s: String)
    ensures Runs(s, NotSpace, false) == Runs(TrimStart(s), NotSpace, false)
    decreases |s|
  {
    if s != [] && IsSpace(s[0]) {
      LeadingSpaceHoldsNoWord(s[1..]);
    }
  }

  /** Trailing whitespace holds no word either. */
  lemma {:induction false} TrailingSpaceHoldsNoWord(v: String, w: String, inRun: bool)
    requires forall i :: 0 <= i < |w| ==> IsSpace(w[i])
    ensures Runs(v + w, NotSpace, inRun) == Runs(v, NotSpace, inRun)
    decreases |v|
  {
    if v == [] {
      assert v + w == w;
      AllSpaceHoldsNoWord(w, inRun);
    } else {
      assert (v + w)[0] == v[0];
      assert (v + w)[1..] == v[1..] + w;
      TrailingSpaceHoldsNoWord(v[1..], w, NotSpace(v[0]));
    }
  }

  lemma {:induction false} AllSpaceHoldsNoWord(w: String, inRun: bool)
    requires forall i :: 0 <= i < |w| ==> IsSpace(w[i])
    ensures Runs(w, NotSpace, inRun) == 0
    decreases |w|
  {
    if w != [] {
      AllSpaceHoldsNoWord(w[1..], false);
    }
  }

  /**
   * On text that ends in a non-space, splitting on whitespace runs gives one piece for the
   * piece under construction (if any) plus one per word still to come.
   */
  lemma {:induction false} SplitCountsWords(s: String, current: String)
    requires s == [] || !IsSpace(s[|s| - 1])
    requires current != [] || (s != [] && !IsSpace(s[0]))
    ensures |SplitFrom(s, current)| == (if current != [] then 1 else 0) + Runs(s, NotSpace, current != [])
    decreases |s|
  {
    if s != [] {
      if IsSpace(s[0]) {
        var t := TrimStart(s[1..]);
        assert s[1..][|s[1..]| - 1] == s[|s| - 1];
        assert t != [];
        assert t[|t| - 1] == s[1..][|s[1..]| - 1];
        LeadingSpaceHoldsNoWord(s[1..]);
        SplitCountsWords(t, []);
      } else {
        SplitCountsWords(s[1..], current + [s[0]]);
      }
    }
  }

  /** Trailing whitespace holds no word. */
  lemma TrimEndKeepsWords(u: String)
    ensures Runs(u, NotSpace, false) == Runs(TrimEnd(u), NotSpace, false)
  {
    var t := TrimEnd(u);
    var w := u[|t|..];
    assert u == t + w by {
      assert t == u[..|t|];
    }
    forall i | 0 <= i < |w|
      ensures IsSpace(w[i])
    {
      assert w[i] == u[|t| + i];
    }
    TrailingSpaceHoldsNoWord(t, w, false);
  }

  /** Trimming removes no word. */
  lemma {:induction false} TrimKeepsWords(bio: String)
    ensures Words(Trim(bio)) == Words(bio)
  {
    LeadingSpaceHoldsNoWord(bio);
    TrimEndKeepsWords(TrimStart(bio));
  }

  /** The counter shows the number of words in the bio, surrounding whitespace or not. */
  lemma WordCountCountsWords(bio: String)
    ensures WordCount(bio) == Words(bio)
  {
    var t := Trim(bio);
    TrimKeepsWords(bio);
    if t != [] {
      SplitCountsWords(t, []);
    }
  }
}
