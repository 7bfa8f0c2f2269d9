/**
 * The preference step of onboarding: twelve interest bubbles, at most three of which may
 * be selected. The wizard's toggle handler and the bubble's own guard both enforce the
 * cap; Continue needs three selections.
 */
module Preferences {
  import opened Options
  import opened JsText
  import opened SeqUtil
  import PostButton

  /** `Preference`. */
  datatype Preference = Preference(id: String, name: String, selected: bool)

  /** The cap on selections and the number Continue needs. */
  const MaxSelected: nat := 3

  /** `PREFERENCES`: twelve bubbles with ids "1" to "12", none selected. */
  const InitialPreferences: seq<Preference> := [
    Preference("1", "Bike repair", false),
    Preference("2", "Books", false),
    Preference("3", "Tools", false),
    Preference("4", "Clothes", false),
    Preference("5", "PC repair", false),
    Preference("6", "Babysitting", false),
    Preference("7", "Tutoring", false),
    Preference("8", "Cleaning", false),
    Preference("9", "Surplus", false),
    Preference("10", "Homemade dishes", false),
    Preference("11", "Dry goods", false),
    Preference("12", "Small appliances", false)]

  /** The number of selected entries, counted from the front. */
  function SelectedCount(prefs: seq<Preference>): (n: nat)
    ensures n <= |prefs|
    ensures n == 0 <==> forall i :: 0 <= i < |prefs| ==> !prefs[i].selected
  {
    if prefs == [] then 0 else (if prefs[0].selected then 1 else 0) + SelectedCount(prefs[1..])
  }

  function IsSelected(p: Preference): bool { p.selected }

  /** `preferences.filter((p) => p.selected).length` is the same count. */
  lemma {:induction false} SelectedCountIsFilterLength(prefs: seq<Preference>)
    ensures SelectedCount(prefs) == |Filter(prefs, IsSelected)|
  {
    if prefs != [] {
      SelectedCountIsFilterLength(prefs[1..]);
    }
  }

  /** No two entries share an id. */
  ghost predicate UniqueIds(prefs: seq<Preference>) {
    forall i, j :: 0 <= i < j < |prefs| ==> prefs[i].id != prefs[j].id
  }

  /** `k` is the first position holding `id`. */
  ghost predicate FirstWithId(prefs: seq<Preference>, id: String, k: int) {
    && 0 <= k < |prefs| && prefs[k].id == id
    && forall i :: 0 <= i < k ==> prefs[i].id != id
  }

  /** `preferences.find((p) => p.id === id)`. */
  function Find(prefs: seq<Preference>, id: String): (r: Option<Preference>)
    ensures r.None? <==> forall i :: 0 <= i < |prefs| ==> prefs[i].id != id
    ensures r.Some? ==> exists k :: FirstWithId(prefs, id, k) && prefs[k] == r.value
  {
    if prefs == [] then None
    else if prefs[0].id == id then
      assert FirstWithId(prefs, id, 0);
      Some(prefs[0])
    else
      var r := Find(prefs[1..], id);
      if r.Some? then
        assert exists k :: FirstWithId(prefs, id, k) && prefs[k] == r.value by {
          var k :| FirstWithId(prefs[1..], id, k) && prefs[1..][k] == r.value;
          assert prefs[k + 1] == r.value;
          assert FirstWithId(prefs, id, k + 1) by {
            forall i | 0 <= i < k + 1 ensures prefs[i].id != id {
              if i > 0 {
                assert prefs[i] == prefs[1..][i - 1];
              }
            }
          }
        }
        r
      else
        r
  }

  /** The guard of `handlePreferenceToggle`: the entry is selected, or fewer than three are. */
  predicate ToggleAllowed(prefs: seq<Preference>, id: String) {
    (match Find(prefs, id) case Some(p) => p.selected case None => false)
      || SelectedCount(prefs) < MaxSelected
  }

  function Flip(p: Preference, id: String): Preference {
    if p.id == id then p.(selected := !p.selected) else p
  }

  /**
   * `handlePreferenceToggle`: when allowed, every entry with the id flips and all others
   * stay as they were, in place; when not allowed, the list is returned unchanged.
   */
  function Toggle(prefs: seq<Preference>, id: String): (r: seq<Preference>)
    ensures |r| == |prefs|
    ensures forall i :: 0 <= i < |prefs| ==> r[i].id == prefs[i].id && r[i].name == prefs[i].name
    ensures forall i :: 0 <= i < |prefs| && prefs[i].id != id ==> r[i] == prefs[i]
    ensures ToggleAllowed(prefs, id) ==>
      forall i :: 0 <= i < |prefs| && prefs[i].id == id ==> r[i].selected == !prefs[i].selected
    ensures !ToggleAllowed(prefs, id) ==> r == prefs
  {
    if ToggleAllowed(prefs, id) then seq(|prefs|, i requires 0 <= i < |prefs| => Flip(prefs[i], id))
    else prefs
  }

  /** An unknown id leaves the list as it is. */
  lemma ToggleUnknownId(prefs: seq<Preference>, id: String)
    requires forall i :: 0 <= i < |prefs| ==> prefs[i].id != id
    ensures Toggle(prefs, id) == prefs
  {
  }

  /** Changing the selection of one entry moves the count by exactly one. */
  lemma {:induction false} CountAfterFlipAt(s: seq<Preference>, t: seq<Preference>, k: nat)
    requires |s| == |t| && k < |s|
    requires forall i :: 0 <= i < |s| && i != k ==> s[i].selected == t[i].selected
    requires t[k].selected != s[k].selected
    ensures SelectedCount(t) == SelectedCount(s) + (if t[k].selected then 1 else -1)
  {
    if k == 0 {
      SameSelectionSameCount(s[1..], t[1..]);
    } else {
      CountAfterFlipAt(s[1..], t[1..], k - 1);
    }
  }

  lemma {:induction false} SameSelectionSameCount(s: seq<Preference>, t: seq<Preference>)
    requires |s| == |t|
    requires forall i :: 0 <= i < |s| ==> s[i].selected == t[i].selected
    ensures SelectedCount(s) == SelectedCount(t)
  {
    if s != [] {
      SameSelectionSameCount(s[1..], t[1..]);
    }
  }

  /** The invariant the toggle keeps: unique ids and at most three selections. */
  ghost predicate WithinCap(prefs: seq<Preference>) {
    UniqueIds(prefs) && SelectedCount(prefs) <= MaxSelected
  }

  lemma InitialWithinCap()
    ensures WithinCap(InitialPreferences)
    ensures SelectedCount(InitialPreferences) == 0
  {
    assert forall i :: 0 <= i < |InitialPreferences| ==> !InitialPreferences[i].selected;
    InitialIdsUnique();
  }

  lemma InitialIdsUnique()
    ensures UniqueIds(InitialPreferences)
  {
    forall i | 0 <= i < |InitialPreferences|
      ensures IdNumber(InitialPreferences[i].id) == i + 1
    {
    }
  }

  /** The number a one- or two-digit id spells. */
  function IdNumber(id: String): int {
    if |id| == 1 then Digit(id[0])
    else if |id| == 2 then 10 * Digit(id[0]) + Digit(id[1])
    else 0
  }

  function Digit(c: char): int {
    c as int - '0' as int
  }

  /** A toggle never takes the selection past three. */
  lemma ToggleKeepsCap(prefs: seq<Preference>, id: String)
    requires WithinCap(prefs)
    ensures WithinCap(Toggle(prefs, id))
  {
    var r := Toggle(prefs, id);
    if ToggleAllowed(prefs, id) && exists k :: 0 <= k < |prefs| && prefs[k].id == id {
      var k :| 0 <= k < |prefs| && prefs[k].id == id;
      CountAfterFlipAt(prefs, r, k);
      if !prefs[k].selected {
        var f := Find(prefs, id);
        assert f == Some(prefs[k]);
      }
    } else {
      SameSelectionSameCount(prefs, r);
    }
  }

  /** Below the cap, selecting an unselected entry whose id is unique adds exactly one. */
  lemma ToggleUnselectedAddsOne(prefs: seq<Preference>, k: nat)
    requires UniqueIds(prefs) && SelectedCount(prefs) < MaxSelected
    requires k < |prefs| && !prefs[k].selected
    ensures SelectedCount(Toggle(prefs, prefs[k].id)) == SelectedCount(prefs) + 1
  {
    var r := Toggle(prefs, prefs[k].id);
    assert forall i :: 0 <= i < |prefs| && i != k ==> prefs[i].id != prefs[k].id;
    CountAfterFlipAt(prefs, r, k);
  }

  function ToggleAll(prefs: seq<Preference>, ids: seq<String>): seq<Preference>
    decreases |ids|
  {
    if ids == [] then prefs else ToggleAll(Toggle(prefs, ids[0]), ids[1..])
  }

  /** No sequence of toggles from a list within the cap selects more than three. */
  lemma {:induction false} TogglesNeverExceedCap(prefs: seq<Preference>, ids: seq<String>)
    requires WithinCap(prefs)
    ensures WithinCap(ToggleAll(prefs, ids))
    ensures SelectedCount(ToggleAll(prefs, ids)) <= MaxSelected
    decreases |ids|
  {
    if ids != [] {
      ToggleKeepsCap(prefs, ids[0]);
      TogglesNeverExceedCap(Toggle(prefs, ids[0]), ids[1..]);
    }
  }

  /** Starting from the initial twelve, the selection never exceeds three. */
  lemma InitialTogglesWithinCap(ids: seq<String>)
    ensures SelectedCount(ToggleAll(InitialPreferences, ids)) <= MaxSelected
  {
    InitialWithinCap();
    TogglesNeverExceedCap(InitialPreferences, ids);
  }

  /** Deselecting always goes through, whatever the count. */
  lemma DeselectAlwaysSucceeds(prefs: seq<Preference>, k: nat)
    requires UniqueIds(prefs) && k < |prefs| && prefs[k].selected
    ensures !Toggle(prefs, prefs[k].id)[k].selected
  {
    assert Find(prefs, prefs[k].id) == Some(prefs[k]);
  }

  /**
   * A bubble press in `SetPreferences`: an unselected bubble is ignored once three are
   * selected; otherwise `onToggle` gets the bubble's id. The screen reads entries 0 to 11.
   */
  function PressBubble(prefs: seq<Preference>, i: nat): (r: Option<String>)
    requires i < 12 <= |prefs|
    ensures r.None? <==> !prefs[i].selected && SelectedCount(prefs) >= MaxSelected
    ensures r.Some? ==> r.value == prefs[i].id
  {
    if !prefs[i].selected && SelectedCount(prefs) >= MaxSelected then None else Some(prefs[i].id)
  }

  /**
   * The bubble's guard and the handler's guard agree: with unique ids, a press that is
   * forwarded flips exactly that bubble, and a press that is dropped would have been
   * refused by the handler too.
   */
  lemma BubbleAgreesWithHandler(prefs: seq<Preference>, i: nat)
    requires i < 12 <= |prefs| && UniqueIds(prefs)
    ensures PressBubble(prefs, i).Some? ==>
      Toggle(prefs, prefs[i].id)[i].selected == !prefs[i].selected
    ensures PressBubble(prefs, i).None? ==> Toggle(prefs, prefs[i].id) == prefs
  {
    assert Find(prefs, prefs[i].id) == Some(prefs[i]);
  }

  /** Continue is enabled exactly when at least three bubbles are selected. */
  function ContinueFires(prefs: seq<Preference>): (fires: bool)
    ensures fires <==> SelectedCount(prefs) >= MaxSelected
  {
    PostButton.Fires(SelectedCount(prefs) < MaxSelected, false)
  }

  /** Under the cap, Continue fires exactly when the cap is reached. */
  lemma ContinueAtCap(prefs: seq<Preference>)
    requires WithinCap(prefs)
    ensures ContinueFires(prefs) <==> SelectedCount(prefs) == MaxSelected
  {
  }
}
