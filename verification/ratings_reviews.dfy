/**
 * A trader's ratings and reviews page: two filter dropdowns (rating, sort order), the
 * list of reviews with their stars, and a header menu (block, report).
 */
module RatingsReviews {
  import opened Options
  import opened JsText
  import opened PopupMenu

  const RatingOptions: seq<String> := ["1 star", "2 stars", "3 stars", "4 stars", "5 stars"]
  const SortOptions: seq<String> := ["New to old", "Old to new"]

  /** The page's state: the two button labels, the two dropdowns, and the header menu. */
  datatype Page = Page(
    sortBy: String,
    filterRating: String,
    ratingOpen: bool,
    sortOpen: bool,
    header: bool,
    position: Option<Point>)

  const InitialPage: Page := Page("Sort by", "Rating", false, false, false, None)

  /** The rating button: flips its own dropdown and shuts the sort dropdown. */
  function PressRatingButton(p: Page): (r: Page)
    ensures r.ratingOpen == !p.ratingOpen && !r.sortOpen
    ensures r == p.(ratingOpen := r.ratingOpen, sortOpen := false)
  {
    p.(ratingOpen := !p.ratingOpen, sortOpen := false)
  }

  /** The sort button: flips its own dropdown and shuts the rating dropdown. */
  function PressSortButton(p: Page): (r: Page)
    ensures r.sortOpen == !p.sortOpen && !r.ratingOpen
    ensures r == p.(sortOpen := r.sortOpen, ratingOpen := false)
  {
    p.(sortOpen := !p.sortOpen, ratingOpen := false)
  }

  /** `handleSelectRating`: the rating button shows the choice and its dropdown closes. */
  function SelectRating(p: Page, rating: String): (r: Page)
    ensures r.filterRating == rating && !r.ratingOpen
    ensures r.sortBy == p.sortBy && r.sortOpen == p.sortOpen && r.header == p.header
  {
    p.(filterRating := rating, ratingOpen := false)
  }

  /** `handleSelectSort`: the sort button shows the choice and its dropdown closes. */
  function SelectSort(p: Page, sort: String): (r: Page)
    ensures r.sortBy == sort && !r.sortOpen
    ensures r.filterRating == p.filterRating && r.ratingOpen == p.ratingOpen && r.header == p.header
  {
    p.(sortBy := sort, sortOpen := false)
  }

  /** `handleHeaderMenuPress`: the adjusted anchor is recorded and the menu opens. */
  function HeaderMenuPress(p: Page, pageX: real, pageY: real, width: real, height: real): (r: Page)
    ensures r.header && r.position == Some(MenuPosition(pageX, pageY, width, height))
    ensures r.(header := p.header, position := p.position) == p
  {
    p.(header := true, position := Some(MenuPosition(pageX, pageY, width, height)))
  }

  /** `closeMenus`. */
  function CloseMenus(p: Page): (r: Page)
    ensures !r.header
    ensures r.(header := p.header) == p
  {
    p.(header := false)
  }

  /** A callback the page passes up. */
  datatype Callback = BlockUser | ReportUser

  datatype Outcome = Outcome(page: Page, callback: Option<Callback>)

  /**
   * Block or Report in the header menu, as written: only the never-shown action sheet is
   * slid away, so the header menu stays open while the callback is made.
   */
  function HeaderActionAsWritten(p: Page, c: Callback): (r: Outcome)
    ensures r.callback == Some(c) && r.page == p
  {
    Outcome(p, Some(c))
  }

  /** After reporting from an open header menu, the menu is still drawn. */
  lemma ReportLeavesHeaderMenuOpen(p: Page)
    requires p.header
    ensures HeaderActionAsWritten(p, ReportUser).page.header
  {
  }

  /** Block or Report with the header menu closed first. */
  function HeaderAction(p: Page, c: Callback): (r: Outcome)
    ensures r.callback == Some(c) && !r.page.header
    ensures r.page == CloseMenus(p)
  {
    Outcome(CloseMenus(p), Some(c))
  }

  /** Star `k` (from 1 to 5) of any review: the first three are drawn filled, the rating is not read. */
  function RenderStars(rating: real): (filled: seq<bool>)
    ensures |filled| == 5
    ensures forall k :: 0 <= k < 5 ==> (filled[k] <==> k < 3)
  {
    seq(5, k => k + 1 <= 3)
  }

  /** Every review shows the same stars, whatever its rating. */
  lemma StarsIgnoreRating(a: real, b: real)
    ensures RenderStars(a) == RenderStars(b)
    ensures RenderStars(a) == [true, true, true, false, false]
  {
  }

  /** A page event. */
  datatype Event =
    | RatingButton
    | SortButton
    | PickRating(rating: String)
    | PickSort(sort: String)
    | RatingBackdrop     // a tap outside the open rating dropdown
    | SortBackdrop       // a tap outside the open sort dropdown
    | HeaderDots(pageX: real, pageY: real, width: real, height: real)
    | MenuOverlay        // a tap outside the open header menu
    | HeaderEntry(c: Callback)

  /** The callback an event makes: only a header entry, and only while the menu is drawn. */
  function CallbackOf(p: Page, e: Event): (c: Option<Callback>)
    ensures c.Some? <==> e.HeaderEntry? && p.header
  {
    if e.HeaderEntry? && p.header then HeaderAction(p, e.c).callback else None
  }

  /** One event on the page; a header entry uses the corrected `HeaderAction`. */
  function Step(p: Page, e: Event): Page
  {
    match e
    case RatingButton => PressRatingButton(p)
    case SortButton => PressSortButton(p)
    case PickRating(rating) => SelectRating(p, rating)
    case PickSort(sort) => SelectSort(p, sort)
    case RatingBackdrop => p.(ratingOpen := false)
    case SortBackdrop => p.(sortOpen := false)
    case HeaderDots(x, y, width, height) => HeaderMenuPress(p, x, y, width, height)
    case MenuOverlay => if p.header then CloseMenus(p) else p
    case HeaderEntry(c) => if p.header then HeaderAction(p, c).page else p
  }

  function Run(p: Page, events: seq<Event>): Page
    decreases |events|
  {
    if events == [] then p else Run(Step(p, events[0]), events[1..])
  }

  /** The two dropdowns are never open together. */
  ghost predicate DropdownsExclusive(p: Page) {
    !(p.ratingOpen && p.sortOpen)
  }

  lemma {:induction false} DropdownsStayExclusive(p: Page, events: seq<Event>)
    requires DropdownsExclusive(p)
    ensures DropdownsExclusive(Run(p, events))
    decreases |events|
  {
    if events != [] {
      DropdownsStayExclusive(Step(p, events[0]), events[1..]);
    }
  }

  /**
   * Whenever a header entry makes its callback, the header menu is gone afterwards, and
   * the filters are as they were.
   */
  lemma HeaderEntryClosesMenu(p: Page, e: Event)
    requires CallbackOf(p, e).Some?
    ensures !Step(p, e).header
    ensures Step(p, e).(header := p.header) == p
  {
  }
}
