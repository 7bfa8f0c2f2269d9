/**
 * The profile screen after sign-up: a username (pre-filled "John"), a bio, up to three
 * trade categories chosen from nine chips, a trading radius and an optional picture.
 * Complete hands the entered data to the caller.
 */
module ProfileSetup {
  import opened Options
  import opened JsText
  import opened SeqUtil
  import opened ImagePicker

  /** The category chips, in display order. */
  const Categories: seq<String> := [
    "Electronics", "Books", "Plants", "Food", "Services", "Art", "Tools", "Furniture", "Toys"]

  /** The most categories that can be selected. */
  const MaxCategories: nat := 3

  /** The categories selected when the screen opens. */
  const InitialCategories: seq<String> := ["Electronics"]

  /**
   * `toggleCategory`: a selected category is removed (every copy of it, the others kept in
   * order); an unselected one is appended when fewer than three are selected, and is
   * otherwise ignored.
   */
  function ToggleCategory(selected: seq<String>, category: String): (r: seq<String>)
    ensures category in selected ==>
      && category !in r
      && IsSubsequence(r, selected)
      && forall c :: c != category ==> multiset(r)[c] == multiset(selected)[c]
    ensures category !in selected && |selected| < MaxCategories ==> r == selected + [category]
    ensures category !in selected && |selected| >= MaxCategories ==> r == selected
  {
    if category in selected then
      var kept := Filter(selected, NotEqualTo(category));
      assert forall c :: c in kept ==> c != category;
      kept
    else if |selected| < MaxCategories then selected + [category]
    else selected
  }

  /** No category appears twice. */
  ghost predicate NoDuplicates(s: seq<String>) {
    forall i, j :: 0 <= i < j < |s| ==> s[i] != s[j]
  }

  /** What a selection always satisfies: at most three categories, none twice. */
  ghost predicate WithinCap(s: seq<String>) {
    |s| <= MaxCategories && NoDuplicates(s)
  }

  /** A sequence without duplicates holds each of its elements exactly once. */
  lemma {:induction false} NoDuplicatesCountsOnce(s: seq<String>, c: String)
    requires NoDuplicates(s)
    ensures multiset(s)[c] == if c in s then 1 else 0
    decreases |s|
  {
    if s != [] {
      assert s == [s[0]] + s[1..];
      NoDuplicatesCountsOnce(s[1..], c);
    }
  }

  /** Every element held once means no duplicates. */
  lemma CountsOnceNoDuplicates(s: seq<String>)
    requires forall c :: multiset(s)[c] <= 1
    ensures NoDuplicates(s)
  {
    forall i, j | 0 <= i < j < |s|
      ensures s[i] != s[j]
    {
      assert s == s[..i] + [s[i]] + s[i + 1..j] + [s[j]] + s[j + 1..];
      assert multiset(s)[s[i]] >= 1 + (if s[j] == s[i] then 1 else 0);
    }
  }

  /** One toggle keeps the selection within the cap and free of duplicates. */
  lemma ToggleKeepsCap(selected: seq<String>, category: String)
    requires WithinCap(selected)
    ensures WithinCap(ToggleCategory(selected, category))
  {
    var r := ToggleCategory(selected, category);
    if category in selected {
      forall c ensures multiset(r)[c] <= 1 {
        NoDuplicatesCountsOnce(selected, c);
      }
      CountsOnceNoDuplicates(r);
    } else if |selected| < MaxCategories {
      assert r == selected + [category];
      forall i, j | 0 <= i < j < |r| ensures r[i] != r[j] {
        if j == |selected| {
          assert r[i] == selected[i];
        }
      }
    }
  }

  function ToggleAll(selected: seq<String>, presses: seq<String>): seq<String>
    decreases |presses|
  {
    if presses == [] then selected else ToggleAll(ToggleCategory(selected, presses[0]), presses[1..])
  }

  /** Any run of chip presses keeps the selection within the cap and free of duplicates. */
  lemma {:induction false} TogglesKeepCap(selected: seq<String>, presses: seq<String>)
    requires WithinCap(selected)
    ensures WithinCap(ToggleAll(selected, presses))
    decreases |presses|
  {
    if presses != [] {
      ToggleKeepsCap(selected, presses[0]);
      TogglesKeepCap(ToggleCategory(selected, presses[0]), presses[1..]);
    }
  }

  /** From the screen's initial selection, no sequence of presses breaks the cap. */
  lemma InitialTogglesKeepCap(presses: seq<String>)
    ensures |ToggleAll(InitialCategories, presses)| <= MaxCategories
    ensures NoDuplicates(ToggleAll(InitialCategories, presses))
  {
    TogglesKeepCap(InitialCategories, presses);
  }

  /** Selecting a category and pressing it again gives back the earlier selection. */
  lemma ToggleTwiceRestores(selected: seq<String>, category: String)
    requires category !in selected && |selected| < MaxCategories
    ensures ToggleCategory(ToggleCategory(selected, category), category) == selected
  {
    assert category in selected + [category];
    FilterAppendDropped(selected, category, NotEqualTo(category));
    FilterKeepsAll(selected, NotEqualTo(category));
  }

  /** `isFormValid`: the username is not blank. */
  function IsFormValid(username: String): (ok: bool)
    ensures ok <==> exists i :: 0 <= i < |username| && !IsSpace(username[i])
  {
    BlankIffAllSpace(username);
    !IsBlank(username)
  }

  /** The screen's inputs. */
  datatype Form = Form(
    username: String,
    bio: String,
    categories: seq<String>,
    tradingRadius: String,
    picture: Option<String>)

  const InitialForm: Form := Form("John", "", InitialCategories, "", None)

  /** `ProfileData`: what Complete hands over. */
  datatype ProfileData = ProfileData(username: String, bio: String, categories: seq<String>, tradingRadius: String)

  /**
   * A press on Complete: disabled while the form is invalid; otherwise the inputs are
   * passed on as they stand (the picture is not part of them).
   */
  function HandleComplete(f: Form): (r: Option<ProfileData>)
    ensures r.Some? <==> IsFormValid(f.username)
    ensures r.Some? ==> r.value.username == f.username && r.value.bio == f.bio
    ensures r.Some? ==> r.value.categories == f.categories && r.value.tradingRadius == f.tradingRadius
  {
    if IsFormValid(f.username) then Some(ProfileData(f.username, f.bio, f.categories, f.tradingRadius))
    else None
  }

  /** The screen opens completable: the pre-filled username is not blank. */
  lemma InitialFormCompletes()
    ensures HandleComplete(InitialForm) == Some(ProfileData("John", "", ["Electronics"], ""))
  {
    assert !IsSpace(InitialForm.username[0]);
  }

  /** This screen's own wording of the picker-failure alert. */
  const PickErrorAlert: String := "Error, Failed to pick Image. Please try again."

  /** The form after a pick, and the alert the pick raised, if any. */
  datatype ImagePick = ImagePick(form: Form, alert: Option<String>)

  /**
   * `pickImage`: the picture becomes the first asset's uri, or stays when the pick gave
   * none; a failure raises this screen's alert and changes nothing.
   */
  function PickImage(f: Form, res: PickerResult): (r: ImagePick)
    ensures HasAsset(res) ==> r.form.picture == Some(res.uris[0])
    ensures !HasAsset(res) ==> r.form == f
    ensures r.form == f.(picture := r.form.picture)
    ensures r.alert.Some? <==> res.PickerFailed?
    ensures r.alert.Some? ==> r.alert.value == PickErrorAlert
  {
    match res
    case Picked(uris) => ImagePick(if |uris| > 0 then f.(picture := Some(uris[0])) else f, None)
    case Canceled => ImagePick(f, None)
    case PickerFailed => ImagePick(f, Some(PickErrorAlert))
  }

  /** `removeImage`. */
  function RemoveImage(f: Form): (r: Form)
    ensures r.picture.None?
    ensures r == f.(picture := None)
  {
    f.(picture := None)
  }

  /** Picking and then removing a picture leaves the form as it was without one. */
  lemma PickThenRemove(f: Form, res: PickerResult)
    ensures RemoveImage(PickImage(f, res).form) == RemoveImage(f)
    ensures HandleComplete(PickImage(f, res).form) == HandleComplete(f)
  {
  }
}
