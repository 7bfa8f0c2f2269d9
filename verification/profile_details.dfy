/**
 * A trader's profile page: the trader's listed items under two tabs (available and
 * traded), a header menu (block, report) and a per-item menu (trade, report).
 */
module ProfileDetails {
  import opened Options
  import opened JsText
  import opened SeqUtil
  import opened PopupMenu

  /** The two tabs, which are also the two item statuses. */
  datatype Tab = Available | Traded

  /** `ListedItem`; the image is left out. */
  datatype ListedItem = ListedItem(id: String, title: String, updatedDate: String, tradedDate: Option<String>, status: Tab)

  function HasStatus(tab: Tab): ListedItem -> bool {
    (item: ListedItem) => item.status == tab
  }

  /** `filteredItems`: the items whose status is the active tab, in list order. */
  function FilteredItems(items: seq<ListedItem>, tab: Tab): (r: seq<ListedItem>)
    ensures forall i :: 0 <= i < |r| ==> r[i].status == tab
    ensures forall item :: item in r <==> item in items && item.status == tab
    ensures IsSubsequence(r, items)
  {
    var r := Filter(items, HasStatus(tab));
    forall item ensures item in r <==> item in items && item.status == tab {
      FilterMembership(items, HasStatus(tab), item);
    }
    r
  }

  /** Every item is shown under exactly one tab. */
  lemma TabsPartitionItems(items: seq<ListedItem>)
    ensures |FilteredItems(items, Available)| + |FilteredItems(items, Traded)| == |items|
    ensures forall item :: item in items ==> (item in FilteredItems(items, Available) <==> item !in FilteredItems(items, Traded))
  {
    FilterPartition(items, HasStatus(Available), HasStatus(Traded));
  }

  /**
   * The date line under an item: "Updated on" and the update date on the available tab;
   * "Traded on" and the trade date on the traded tab, or the update date when there is none.
   */
  function DateLabel(tab: Tab, item: ListedItem): (line: String)
    ensures tab.Available? ==> line == "Updated on " + item.updatedDate
    ensures tab.Traded? && item.tradedDate.Some? && item.tradedDate.value != [] ==>
      line == "Traded on " + item.tradedDate.value
    ensures tab.Traded? && (item.tradedDate.None? || item.tradedDate.value == []) ==>
      line == "Traded on " + item.updatedDate
  {
    match tab
    case Available => "Updated on " + item.updatedDate
    case Traded =>
      "Traded on " + (if item.tradedDate.Some? && item.tradedDate.value != [] then item.tradedDate.value else item.updatedDate)
  }

  /** Whether `line` begins with `prefix`. */
  predicate StartsWith(line: String, prefix: String) {
    |prefix| <= |line| && line[..|prefix|] == prefix
  }

  /**
   * On either tab, each listed item's date line begins "Traded on " exactly when the item
   * is traded, and a traded item that records a trade date shows that date, not its
   * update date.
   */
  lemma ShownDatesMatchStatus(items: seq<ListedItem>, tab: Tab)
    ensures forall it :: it in FilteredItems(items, tab) ==>
      (StartsWith(DateLabel(tab, it), "Traded on ") <==> it.status.Traded?)
    ensures forall it :: it in FilteredItems(items, tab) && it.status.Traded? && it.tradedDate.Some? && it.tradedDate.value != [] ==>
      DateLabel(tab, it)[|"Traded on "|..] == it.tradedDate.value
    ensures forall it :: it in FilteredItems(items, tab) && it.status.Available? ==>
      DateLabel(tab, it)[|"Updated on "|..] == it.updatedDate
  {
    forall it | it in FilteredItems(items, tab) {
      DateLineOfOwnTab(it);
    }
  }

  /** The date line an item gets under the tab of its own status. */
  lemma DateLineOfOwnTab(it: ListedItem)
    ensures StartsWith(DateLabel(it.status, it), "Traded on ") <==> it.status.Traded?
    ensures it.status.Traded? && it.tradedDate.Some? && it.tradedDate.value != [] ==>
      DateLabel(it.status, it)[|"Traded on "|..] == it.tradedDate.value
    ensures it.status.Available? ==> DateLabel(it.status, it)[|"Updated on "|..] == it.updatedDate
  {
    if it.status.Available? {
      assert DateLabel(it.status, it)[9] == 'n';
    }
  }

  /** The menus' state. */
  datatype Menus = Menus(header: bool, item: bool, position: Option<Point>, selected: Option<ListedItem>)

  const NoMenus: Menus := Menus(false, false, None, None)

  /** `handleHeaderMenuPress`: the adjusted anchor is recorded, the header menu opens and the item menu closes. */
  function HeaderMenuPress(m: Menus, pageX: real, pageY: real, width: real, height: real): (r: Menus)
    ensures r.header && !r.item
    ensures r.position == Some(MenuPosition(pageX, pageY, width, height))
    ensures r.selected == m.selected
  {
    m.(header := true, item := false, position := Some(MenuPosition(pageX, pageY, width, height)))
  }

  /** `handleItemMenuPress`: the adjusted anchor and the item are recorded, the item menu opens and the header menu closes. */
  function ItemMenuPress(m: Menus, it: ListedItem, pageX: real, pageY: real, width: real, height: real): (r: Menus)
    ensures r.item && !r.header
    ensures r.selected == Some(it)
    ensures r.position == Some(MenuPosition(pageX, pageY, width, height))
  {
    Menus(false, true, Some(MenuPosition(pageX, pageY, width, height)), Some(it))
  }

  /** `closeMenus`: both menus close and the item is forgotten; the position is kept. */
  function CloseMenus(m: Menus): (r: Menus)
    ensures !r.header && !r.item && r.selected.None?
    ensures r.position == m.position
  {
    m.(header := false, item := false, selected := None)
  }

  /** A callback the page passes up. */
  datatype Callback = BlockUser | ReportUser

  /** The menus afterwards and the callback made, if any. */
  datatype Outcome = Outcome(menus: Menus, callback: Option<Callback>)

  /**
   * Block or Report in the header menu, as written: `handleBlockUser` and `handleReportUser`
   * only slide away the action sheet (`closeMenu`, which never opened) and make the
   * callback, so the header menu stays open.
   */
  function HeaderActionAsWritten(m: Menus, c: Callback): (r: Outcome)
    ensures r.callback == Some(c)
    ensures r.menus == m
  {
    Outcome(m, Some(c))
  }

  /** After blocking from an open header menu, the menu is still drawn. */
  lemma BlockLeavesHeaderMenuOpen(m: Menus)
    requires m.header
    ensures HeaderActionAsWritten(m, BlockUser).menus.header
  {
  }

  /** Block or Report in the header menu with the menus closed, as the item menu's Report does. */
  function HeaderAction(m: Menus, c: Callback): (r: Outcome)
    ensures r.callback == Some(c)
    ensures !r.menus.header && !r.menus.item
  {
    Outcome(CloseMenus(m), Some(c))
  }

  /** The item menu's Report: `closeMenus`, then the report callback. */
  function ItemReport(m: Menus): (r: Outcome)
    ensures r.callback == Some(ReportUser)
    ensures r.menus == CloseMenus(m)
  {
    Outcome(CloseMenus(m), Some(ReportUser))
  }

  /** The corrected header action leaves the menus just as the item menu's Report does. */
  lemma HeaderActionMatchesItemReport(m: Menus)
    ensures HeaderAction(m, ReportUser) == ItemReport(m)
    ensures HeaderAction(m, BlockUser).menus == ItemReport(m).menus
  {
  }

  /** A press on the page. */
  datatype Press =
    | HeaderDots(pageX: real, pageY: real)
    | ItemDots(it: ListedItem, pageX: real, pageY: real)
    | Overlay
    | HeaderEntry(c: Callback)
    | ItemTrade
    | ItemReportEntry

  /**
   * One press in a window of the given size; menu entries respond only while their menu
   * is drawn, and a header entry uses the corrected `HeaderAction`.
   */
  function Step(m: Menus, p: Press, width: real, height: real): Menus
  {
    match p
    case HeaderDots(x, y) => HeaderMenuPress(m, x, y, width, height)
    case ItemDots(it, x, y) => ItemMenuPress(m, it, x, y, width, height)
    case Overlay => if m.header || m.item then CloseMenus(m) else m
    case HeaderEntry(c) => if m.header then HeaderAction(m, c).menus else m
    case ItemTrade => if m.item then CloseMenus(m) else m
    case ItemReportEntry => if m.item then ItemReport(m).menus else m
  }

  /** At most one menu is open, and an open item menu knows its item and place. */
  ghost predicate MenusValid(m: Menus) {
    && !(m.header && m.item)
    && (m.item ==> m.selected.Some? && m.position.Some?)
    && (m.header ==> m.position.Some?)
  }

  function Run(m: Menus, presses: seq<Press>, width: real, height: real): Menus
    decreases |presses|
  {
    if presses == [] then m else Run(Step(m, presses[0], width, height), presses[1..], width, height)
  }

  /** Whatever is pressed, the two menus are never open together. */
  lemma {:induction false} MenusStayValid(m: Menus, presses: seq<Press>, width: real, height: real)
    requires MenusValid(m)
    ensures MenusValid(Run(m, presses, width, height))
    decreases |presses|
  {
    if presses != [] {
      MenusStayValid(Step(m, presses[0], width, height), presses[1..], width, height);
    }
  }
}
