/** The shared `Button`: whether a press reaches `onPress`, and whether it is drawn greyed out. */
module PostButton {

  /** `isDisabled`: only chooses the greyed-out style. */
  function LooksDisabled(disabled: bool, forceEnabled: bool): (grey: bool)
    ensures grey ==> disabled
    ensures forceEnabled ==> !grey
  {
    !forceEnabled && disabled
  }

  /** The touchable receives `disabled` itself, so a press fires exactly when it is not disabled. */
  function Fires(disabled: bool, forceEnabled: bool): (fires: bool)
    ensures fires <==> !disabled
  {
    !disabled
  }

  /**
   * `forceEnabled` changes only the look: a disabled button with `forceEnabled` is drawn as
   * enabled and still ignores presses.
   */
  lemma ForceEnabledOnlyStyles(disabled: bool)
    ensures Fires(disabled, true) == Fires(disabled, false)
    ensures disabled ==> !LooksDisabled(disabled, true) && !Fires(disabled, true)
    ensures LooksDisabled(disabled, false) == !Fires(disabled, false)
  {
  }
}
