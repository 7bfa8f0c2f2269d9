/** What the image library hands back to a photo handler once the user is done. */
module ImagePicker {
  import opened JsText

  datatype PickerResult =
    | Canceled
    | Picked(uris: seq<String>)   // the `uri` of each returned asset; none when `assets` is missing
    | PickerFailed                // the picker threw

  /** The handlers act on the first asset of a pick that was not cancelled and returned one. */
  predicate HasAsset(res: PickerResult) {
    res.Picked? && |res.uris| > 0
  }

  const PickFailedAlert: String := "Failed to pick image. Please try again."
}
