/**
 * The Home screen's filter bar: three filters, each with a label that starts as the
 * filter's own name, and at most one open dropdown. Choosing an option sets that filter
 * and closes its dropdown; "Reset Filter" restores the labels and closes everything.
 */
module HomeFilters {
  import opened Options
  import opened JsText

  datatype FilterKind = Category | Distance | Date

  /** `selectedFilters`. */
  datatype Filters = Filters(category: String, distance: String, date: String) {
    function Get(kind: FilterKind): String {
      match kind
      case Category => category
      case Distance => distance
      case Date => date
    }

    function Set(kind: FilterKind, value: String): (r: Filters)
      ensures r.Get(kind) == value
      ensures forall k :: k != kind ==> r.Get(k) == Get(k)
    {
      match kind
      case Category => this.(category := value)
      case Distance => this.(distance := value)
      case Date => this.(date := value)
    }
  }

  /** The labels the bar starts with and returns to on reset. */
  const DefaultFilters: Filters := Filters("Category", "Distance", "Posted Date")

  /** The options each dropdown offers. */
  const CategoryOptions: seq<String> := ["Books", "Clothes", "Tutoring", "Electronics"]
  const DistanceOptions: seq<String> := ["1 km", "2 km", "3 km", "4 km", "5 km"]
  const DateOptions: seq<String> := ["All time", "24 hours ago", "This Week", "This Month"]

  function ChoicesFor(kind: FilterKind): seq<String> {
    match kind
    case Category => CategoryOptions
    case Distance => DistanceOptions
    case Date => DateOptions
  }

  /** `selectedFilters` and `activeDropdown`. */
  datatype FilterBar = FilterBar(filters: Filters, active: Option<FilterKind>)

  const InitialBar: FilterBar := FilterBar(DefaultFilters, None)

  /**
   * `toggleDropdown`: pressing the open dropdown's button closes it; pressing any other
   * button opens that dropdown instead. The labels are untouched. (The close takes effect
   * when its fade-out animation ends.)
   */
  function ToggleDropdown(bar: FilterBar, kind: FilterKind): (r: FilterBar)
    ensures r.filters == bar.filters
    ensures bar.active == Some(kind) ==> r.active.None?
    ensures bar.active != Some(kind) ==> r.active == Some(kind)
  {
    if bar.active == Some(kind) then bar.(active := None) else bar.(active := Some(kind))
  }

  /** Pressing the same button twice from a closed bar, or from its own open dropdown, restores the bar. */
  lemma ToggleTwiceRestores(bar: FilterBar, kind: FilterKind)
    requires bar.active.None? || bar.active == Some(kind)
    ensures ToggleDropdown(ToggleDropdown(bar, kind), kind) == bar
  {
  }

  /** Two different buttons pressed in turn leave the second one's dropdown open. */
  lemma LastButtonWins(bar: FilterBar, first: FilterKind, second: FilterKind)
    requires first != second
    ensures ToggleDropdown(ToggleDropdown(bar, first), second).active == Some(second)
  {
  }

  /**
   * An option press: only rendered inside the open dropdown of its kind; it sets that
   * filter's label and then toggles the (open) dropdown, which closes it.
   */
  function SelectOption(bar: FilterBar, kind: FilterKind, value: String): (r: FilterBar)
    requires bar.active == Some(kind)
    ensures r.filters.Get(kind) == value
    ensures forall k :: k != kind ==> r.filters.Get(k) == bar.filters.Get(k)
    ensures r.active.None?
  {
    ToggleDropdown(bar.(filters := bar.filters.Set(kind, value)), kind)
  }

  /** `handleResetFilters`. */
  function ResetFilters(bar: FilterBar): (r: FilterBar)
    ensures r.active.None?
    ensures forall k :: r.filters.Get(k) == DefaultFilters.Get(k)
  {
    InitialBar
  }

  /** Reset brings the bar back to how the screen mounts, whatever was chosen before. */
  lemma ResetUndoesSelections(bar: FilterBar, kind: FilterKind, value: String)
    requires bar.active == Some(kind)
    ensures ResetFilters(SelectOption(bar, kind, value)) == InitialBar
    ensures ResetFilters(ResetFilters(bar)) == ResetFilters(bar)
  {
  }

  /** No dropdown offers its filter's own name, so a chosen label never looks like a reset one. */
  lemma ChoiceDiffersFromDefault(bar: FilterBar, kind: FilterKind, value: String)
    requires bar.active == Some(kind) && value in ChoicesFor(kind)
    ensures SelectOption(bar, kind, value).filters != DefaultFilters
  {
    assert SelectOption(bar, kind, value).filters.Get(kind) != DefaultFilters.Get(kind);
  }
}
