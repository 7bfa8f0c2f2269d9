/**
 * The four-box one-time-code entry shared by the profile step and the two verification
 * screens: which keystrokes a box accepts, how a box is overwritten, and how the boxes
 * join into the code that is submitted.
 */
module Otp {
  import opened Options
  import opened JsText

  /** The number of boxes. */
  const SlotCount: nat := 4

  /** `['', '', '', '']`. */
  const EmptyOtp: seq<String> := ["", "", "", ""]

  /** `/^\d*$/.test(value)` */
  predicate AllDigits(value: String) {
    AllChars(value, IsDigit)
  }

  /** What the modal forwards: the value, its box, and the box that takes focus next, if any. */
  datatype Forwarded = Forwarded(value: String, index: int, focus: Option<int>)

  /**
   * `OTPModal.handleOtpChange`: a value is forwarded unchanged exactly when it has at most
   * one character and all its characters are digits (so the empty string, which clears
   * a box, is forwarded). Focus moves to the next box after a non-empty value in boxes 0-2.
   */
  function ModalFilter(value: String, index: int): (r: Option<Forwarded>)
    ensures r.Some? <==> |value| <= 1 && forall i :: 0 <= i < |value| ==> IsDigit(value[i])
    ensures r.Some? ==> r.value.value == value && r.value.index == index
    ensures r.Some? ==> (r.value.focus.Some? <==> value != [] && index < 3)
    ensures r.Some? && r.value.focus.Some? ==> r.value.focus.value == index + 1
  {
    if |value| <= 1 && AllDigits(value) then
      Some(Forwarded(value, index, if value != [] && index < 3 then Some(index + 1) else None))
    else None
  }

  /** Clearing a box is always forwarded, and never moves the focus. */
  lemma ModalForwardsClear(index: int)
    ensures ModalFilter("", index) == Some(Forwarded("", index, None))
  {
  }

  /**
   * The verification screens' filter, `value && !/^\d+$/.test(value)` rejects: the empty
   * string or a run of digits of any length is accepted.
   */
  predicate ScreenAccepts(value: String) {
    value == [] || AllDigits(value)
  }

  /** On what a one-character box can deliver, the screens' filter and the modal's agree. */
  lemma FiltersAgreeOnOneCharacter(value: String, index: int)
    requires |value| <= 1
    ensures ModalFilter(value, index).Some? <==> ScreenAccepts(value)
  {
  }

  /** `newOtp[index] = value` on a copy: that box takes the value and no other box changes. */
  function SetSlot(otp: seq<String>, index: nat, value: String): (r: seq<String>)
    requires index < |otp|
    ensures |r| == |otp| && r[index] == value
    ensures forall i :: 0 <= i < |otp| && i != index ==> r[i] == otp[i]
  {
    otp[index := value]
  }

  /** The last write to a box wins; writing a box's own value back changes nothing. */
  lemma SetSlotOverwrites(otp: seq<String>, index: nat, v1: String, v2: String)
    requires index < |otp|
    ensures SetSlot(SetSlot(otp, index, v1), index, v2) == SetSlot(otp, index, v2)
    ensures SetSlot(otp, index, otp[index]) == otp
  {
  }

  /** `otp.join('')`. */
  function Join(otp: seq<String>): String
  {
    if otp == [] then [] else otp[0] + Join(otp[1..])
  }

  /** `otp.some((digit) => !digit)` */
  predicate AnyEmpty(otp: seq<String>) {
    exists i :: 0 <= i < |otp| && otp[i] == []
  }

  /** Every box is empty or holds one digit: what the filters let in. */
  ghost predicate WellFormed(otp: seq<String>) {
    && |otp| == SlotCount
    && forall i :: 0 <= i < |otp| ==> |otp[i]| <= 1 && AllDigits(otp[i])
  }

  /** With at most one character per box, the joined code is as long as the boxes exactly when none is empty. */
  lemma {:induction false} JoinLength(otp: seq<String>)
    requires forall i :: 0 <= i < |otp| ==> |otp[i]| <= 1
    ensures |Join(otp)| <= |otp|
    ensures |Join(otp)| == |otp| <==> !AnyEmpty(otp)
  {
    if otp != [] {
      JoinLength(otp[1..]);
      if AnyEmpty(otp[1..]) {
        var i :| 0 <= i < |otp[1..]| && otp[1..][i] == [];
        assert otp[i + 1] == [];
      }
      if AnyEmpty(otp) && !AnyEmpty(otp[1..]) {
        assert forall j :: 0 < j < |otp| ==> otp[j] == otp[1..][j - 1];
      }
    }
  }

  /** On well-formed boxes, "no box is empty" and "the code has four characters" coincide. */
  lemma FullIffFourCharacters(otp: seq<String>)
    requires WellFormed(otp)
    ensures |Join(otp)| == SlotCount <==> !AnyEmpty(otp)
  {
    JoinLength(otp);
  }

  lemma EmptyOtpWellFormed()
    ensures WellFormed(EmptyOtp)
    ensures AnyEmpty(EmptyOtp)
  {
    assert EmptyOtp[0] == [];
  }

  /** A forwarded keystroke keeps the boxes well formed. */
  lemma SetSlotKeepsWellFormed(otp: seq<String>, index: nat, value: String)
    requires WellFormed(otp) && index < |otp| && ModalFilter(value, index).Some?
    ensures WellFormed(SetSlot(otp, index, value))
  {
  }

  /** A code-entry screen (sign-up or password reset): the boxes and whether a request is in flight. */
  datatype CodeScreen = CodeScreen(otp: seq<String>, loading: bool)

  /**
   * The screens' `handleOtpChange`: a non-empty value with a non-digit is dropped; otherwise
   * the value overwrites box `index` and nothing else.
   */
  function OtpChange(s: CodeScreen, value: String, index: nat): (r: CodeScreen)
    requires index < |s.otp|
    ensures !ScreenAccepts(value) ==> r == s
    ensures ScreenAccepts(value) ==> r.otp == SetSlot(s.otp, index, value) && r.loading == s.loading
  {
    if !ScreenAccepts(value) then s else s.(otp := SetSlot(s.otp, index, value))
  }

  /** The screens' `isVerifyDisabled`: some box is empty or a request is loading. */
  function VerifyDisabled(s: CodeScreen): (disabled: bool)
    ensures !disabled <==> (forall i :: 0 <= i < |s.otp| ==> s.otp[i] != []) && !s.loading
  {
    AnyEmpty(s.otp) || s.loading
  }

  /** A keystroke the input can deliver (at most one character) keeps the boxes well formed. */
  lemma OtpChangeKeepsWellFormed(s: CodeScreen, value: String, index: nat)
    requires WellFormed(s.otp) && index < |s.otp| && |value| <= 1
    ensures WellFormed(OtpChange(s, value, index).otp)
  {
    if ScreenAccepts(value) {
      FiltersAgreeOnOneCharacter(value, index);
      SetSlotKeepsWellFormed(s.otp, index, value);
    }
  }
}
