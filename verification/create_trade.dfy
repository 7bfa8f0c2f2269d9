/**
 * The trade form of the last onboarding step: the trade draft, its validity, the photo
 * list, the text fields, the availability pickers and the three dropdowns.
 */
module CreateTrade {
  import opened Options
  import opened JsText
  import opened SeqUtil
  import PostButton
  import opened ImagePicker

  datatype Availability = Availability(day: String, time: String)

  /** `Trade`. */
  datatype Trade = Trade(
    category: String,
    title: String,
    photos: seq<String>,
    returnOffer: String,
    description: String,
    availability: Availability,
    location: String,
    useCurrentLocation: bool)

  /** The draft the wizard starts with: every text empty, no photos, current location off. */
  const EmptyTrade: Trade :=
    Trade("", "", [], "", "", Availability("", ""), "", false)

  /** The category choices. */
  const Categories: seq<String> := [
    "Books", "Tools", "Clothes", "Small appliances", "Babysitting", "Film music",
    "Film repair", "Cleaning", "Homemade delicacy", "Surplus", "Dry goods"]

  const Days: seq<String> := ["Monday", "Tuesday", "Wednesday", "Thursday", "Friday", "Saturday", "Sunday"]

  const Times: seq<String> := [
    "08:00 AM", "09:00 AM", "10:00 AM", "11:00 AM", "12:00 PM", "01:00 PM", "02:00 PM",
    "03:00 PM", "04:00 PM", "05:00 PM", "06:00 PM", "07:00 PM", "08:00 PM", "09:00 PM"]

  /**
   * `isFormValid`: the truthiness of category, title, photo count and availability day.
   * Description, return offer, time and location play no part.
   */
  function IsFormValid(t: Trade): (ok: bool)
    ensures ok <==> t.category != [] && t.title != [] && |t.photos| > 0 && t.availability.day != []
  {
    t.category != [] && t.title != [] && |t.photos| > 0 && t.availability.day != []
  }

  /** Two drafts that agree on the four required parts are valid together or not at all. */
  lemma OnlyRequiredFieldsMatter(t: Trade, u: Trade)
    requires t.category == u.category && t.title == u.title && t.photos == u.photos
    requires t.availability.day == u.availability.day
    ensures IsFormValid(t) == IsFormValid(u)
  {
  }

  /** The "Preview" button fires exactly when the form is valid. */
  function PreviewFires(t: Trade): (fires: bool)
    ensures fires <==> IsFormValid(t)
  {
    PostButton.Fires(!IsFormValid(t), false)
  }

  lemma EmptyTradeCannotPreview()
    ensures !PreviewFires(EmptyTrade)
  {
  }

  /** The `onUpdate` call a handler made, if any, and the alert it raised, if any. */
  datatype PhotoPick = PhotoPick(update: Option<Trade>, alert: Option<String>)

  /**
   * `handlePhotoAdd` after the picker returns: the first asset's uri is appended to the
   * photos when the pick was not cancelled and returned at least one asset; a failure
   * raises the alert and changes nothing.
   */
  function AddPhoto(t: Trade, res: PickerResult): (r: PhotoPick)
    ensures r.update.Some? <==> HasAsset(res)
    ensures r.update.Some? ==> r.update.value == t.(photos := t.photos + [res.uris[0]])
    ensures r.alert == Some(PickFailedAlert) <==> res.PickerFailed?
    ensures r.alert.None? <==> !res.PickerFailed?
  {
    match res
    case Picked(uris) =>
      if |uris| > 0 then PhotoPick(Some(t.(photos := t.photos + [uris[0]])), None)
      else PhotoPick(None, None)
    case Canceled => PhotoPick(None, None)
    case PickerFailed => PhotoPick(None, Some(PickFailedAlert))
  }

  /** A successful pick keeps every earlier photo in place, in order, and adds one at the end. */
  lemma AddPhotoAppends(t: Trade, uri: String)
    ensures
      var u := AddPhoto(t, Picked([uri])).update.value;
      && |u.photos| == |t.photos| + 1
      && u.photos[..|t.photos|] == t.photos
      && u.photos[|t.photos|] == uri
  {
  }

  /**
   * `handleRemovePhoto`: every copy of `uri` is removed, every other photo kept with its
   * multiplicity and in its order, and nothing else in the draft changes.
   */
  function RemovePhoto(t: Trade, uri: String): (r: Trade)
    ensures uri !in r.photos
    ensures forall p :: p != uri ==> multiset(r.photos)[p] == multiset(t.photos)[p]
    ensures IsSubsequence(r.photos, t.photos)
    ensures r == t.(photos := r.photos)
  {
    var kept := Filter(t.photos, NotEqualTo(uri));
    assert forall p :: p in kept ==> p != uri;
    t.(photos := kept)
  }

  /** Removing a freshly added photo that was not there before gives back the original draft. */
  lemma RemoveUndoesAdd(t: Trade, uri: String)
    requires uri !in t.photos
    ensures RemovePhoto(AddPhoto(t, Picked([uri])).update.value, uri) == t
  {
    FilterKeepsAll(t.photos, NotEqualTo(uri));
    var added := t.photos + [uri];
    assert Filter(added, NotEqualTo(uri)) == t.photos by {
      FilterAppendDropped(t.photos, uri, NotEqualTo(uri));
    }
  }

  /** The text inputs of the form. */
  datatype TextField = Title | Description | ReturnOffer | Location

  function Text(t: Trade, f: TextField): String {
    match f
    case Title => t.title
    case Description => t.description
    case ReturnOffer => t.returnOffer
    case Location => t.location
  }

  /** An input's `onChangeText`: that field takes the new text and nothing else changes. */
  function EditText(t: Trade, f: TextField, text: String): (r: Trade)
    ensures Text(r, f) == text
    ensures forall g :: g != f ==> Text(r, g) == Text(t, g)
    ensures r.category == t.category && r.photos == t.photos
    ensures r.availability == t.availability && r.useCurrentLocation == t.useCurrentLocation
  {
    match f
    case Title => t.(title := text)
    case Description => t.(description := text)
    case ReturnOffer => t.(returnOffer := text)
    case Location => t.(location := text)
  }

  /** Typing into a field and then typing its old text back restores the draft. */
  lemma EditTextRestores(t: Trade, f: TextField, text: String)
    ensures EditText(EditText(t, f, text), f, Text(t, f)) == t
  {
  }

  /** The "Use my current location" toggle. */
  function ToggleCurrentLocation(t: Trade): (r: Trade)
    ensures r.useCurrentLocation != t.useCurrentLocation
    ensures r.(useCurrentLocation := t.useCurrentLocation) == t
  {
    t.(useCurrentLocation := !t.useCurrentLocation)
  }

  lemma ToggleCurrentLocationTwice(t: Trade)
    ensures ToggleCurrentLocation(ToggleCurrentLocation(t)) == t
  {
  }

  /** Which of the three dropdowns are open. */
  datatype Dropdowns = Dropdowns(category: bool, day: bool, time: bool)

  const AllClosed: Dropdowns := Dropdowns(false, false, false)

  /** The form's local state together with the draft it edits. */
  datatype TradeForm = TradeForm(trade: Trade, open: Dropdowns)

  /** A press on the form's controls. */
  datatype Action =
    | ToggleCategoryMenu
    | ChooseCategory(category: String)
    | ToggleDayMenu
    | ChooseDay(day: String)
    | ToggleTimeMenu
    | ChooseTime(time: String)
    | Type(field: TextField, text: String)
    | ToggleLocation
    | RemovePhotoPress(uri: String)

  /**
   * One press. The day and time buttons each flip their own list and shut the other one;
   * picking an entry writes only that part of the draft (keeping the other part of the
   * availability) and shuts its list.
   */
  function Apply(form: TradeForm, a: Action): (r: TradeForm)
    ensures a.ToggleDayMenu? ==> r.open.day == !form.open.day && !r.open.time && r.trade == form.trade
    ensures a.ToggleTimeMenu? ==> r.open.time == !form.open.time && !r.open.day && r.trade == form.trade
    ensures a.ChooseDay? ==>
      r.trade == form.trade.(availability := Availability(a.day, form.trade.availability.time))
      && !r.open.day
    ensures a.ChooseTime? ==>
      r.trade == form.trade.(availability := Availability(form.trade.availability.day, a.time))
      && !r.open.time
    ensures a.ChooseCategory? ==> r.trade == form.trade.(category := a.category) && !r.open.category
  {
    var t := form.trade;
    var o := form.open;
    match a
    case ToggleCategoryMenu => form.(open := o.(category := !o.category))
    case ChooseCategory(c) => TradeForm(t.(category := c), o.(category := false))
    case ToggleDayMenu => form.(open := o.(day := !o.day, time := false))
    case ChooseDay(d) => TradeForm(t.(availability := t.availability.(day := d)), o.(day := false))
    case ToggleTimeMenu => form.(open := o.(time := !o.time, day := false))
    case ChooseTime(x) => TradeForm(t.(availability := t.availability.(time := x)), o.(time := false))
    case Type(f, text) => form.(trade := EditText(t, f, text))
    case ToggleLocation => form.(trade := ToggleCurrentLocation(t))
    case RemovePhotoPress(uri) => form.(trade := RemovePhoto(t, uri))
  }

  /** The day and time lists are never open together. */
  ghost predicate ListsExclusive(form: TradeForm) {
    !(form.open.day && form.open.time)
  }

  function ApplyAll(form: TradeForm, actions: seq<Action>): TradeForm
    decreases |actions|
  {
    if actions == [] then form else ApplyAll(Apply(form, actions[0]), actions[1..])
  }

  /** From a form with at most one of the two lists open, any run of presses keeps it so. */
  lemma {:induction false} ListsStayExclusive(form: TradeForm, actions: seq<Action>)
    requires ListsExclusive(form)
    ensures ListsExclusive(ApplyAll(form, actions))
    decreases |actions|
  {
    if actions != [] {
      ListsStayExclusive(Apply(form, actions[0]), actions[1..]);
    }
  }

  /** Day and time choices are independent: picking them in either order gives the same draft. */
  lemma DayAndTimeCommute(form: TradeForm, d: String, x: String)
    ensures Apply(Apply(form, ChooseDay(d)), ChooseTime(x)).trade
         == Apply(Apply(form, ChooseTime(x)), ChooseDay(d)).trade
  {
  }
}
