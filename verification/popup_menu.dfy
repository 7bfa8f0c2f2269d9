/**
 * Where the profile and review screens anchor their pop-up menus, and where the menus are
 * then drawn. A press stores an anchor: the touch, moved left when 220 pixels to its right
 * would run past the window's edge, and moved up by 120 pixels when the touch is within 120
 * pixels of the bottom. The screens draw the 228-pixel-wide menu 10 pixels below the
 * anchor's y and 20 pixels from the window's right edge; the anchor's x is never read.
 */
module PopupMenu {

  /** The width the anchor keeps free to its right. */
  const MenuWidth: real := 220.0

  /** The height the anchor keeps free below it. */
  const MenuHeight: real := 120.0

  datatype Point = Point(x: real, y: real)

  /** `adjustedX`: the touch's x, or the window width less the menu width when it would not fit. */
  function AdjustX(pageX: real, width: real): (x: real)
    ensures x + MenuWidth <= width
    ensures x <= pageX
    ensures pageX + MenuWidth <= width ==> x == pageX
  {
    if pageX + MenuWidth > width then width - MenuWidth else pageX
  }

  /** `adjustedY`: the touch's y, or 120 pixels higher when it is within 120 pixels of the bottom. */
  function AdjustY(pageY: real, height: real): (y: real)
    ensures pageY + MenuHeight > height ==> y == pageY - MenuHeight
    ensures pageY + MenuHeight <= height ==> y == pageY
  {
    if pageY + MenuHeight > height then pageY - MenuHeight else pageY
  }

  /** The anchor a press stores, `{x: adjustedX, y: adjustedY}`. */
  function MenuPosition(pageX: real, pageY: real, width: real, height: real): (p: Point)
    ensures p.x == AdjustX(pageX, width) && p.y == AdjustY(pageY, height)
  {
    Point(AdjustX(pageX, width), AdjustY(pageY, height))
  }

  /**
   * For a touch inside the window, the stored anchor keeps 220 pixels free to its right
   * and 120 below it inside the window, and never lies below the touch.
   */
  lemma MenuFitsWindow(pageX: real, pageY: real, width: real, height: real)
    requires 0.0 <= pageY <= height
    ensures MenuPosition(pageX, pageY, width, height).x + MenuWidth <= width
    ensures MenuPosition(pageX, pageY, width, height).y + MenuHeight <= height
    ensures MenuPosition(pageX, pageY, width, height).y <= pageY
  {
  }

  /** An x already adjusted is left where it is. */
  lemma AdjustXIdempotent(pageX: real, width: real)
    ensures AdjustX(AdjustX(pageX, width), width) == AdjustX(pageX, width)
  {
  }

  /** The drawn menu's width (`width: 228`). */
  const DrawnWidth: real := 228.0

  /** How far below the anchor's y the menu's top is drawn (`top: menuPosition.y + 10`). */
  const TopOffset: real := 10.0

  /** The menu's distance from the window's right edge (`right: 20`). */
  const RightInset: real := 20.0

  /** A drawn menu's top edge and horizontal extent. */
  datatype Box = Box(left: real, top: real, right: real)

  /** Where a menu with this anchor is drawn in a window of this width. */
  function DrawnMenu(anchor: Point, width: real): (b: Box)
    ensures b.right - b.left == DrawnWidth
  {
    Box(width - RightInset - DrawnWidth, anchor.y + TopOffset, width - RightInset)
  }

  /**
   * The drawn menu does not follow the touch sideways: its place is the same for every
   * x of the touch, 20 pixels in from the right edge. Its top is 10 pixels below the touch,
   * or 110 pixels above it when the touch is within 120 pixels of the bottom; then, for a
   * touch inside the window, the top is at least 110 pixels above the bottom.
   */
  lemma DrawnMenuPlacement(pageX: real, otherX: real, pageY: real, width: real, height: real)
    ensures DrawnMenu(MenuPosition(pageX, pageY, width, height), width) ==
      DrawnMenu(MenuPosition(otherX, pageY, width, height), width)
    ensures DrawnMenu(MenuPosition(pageX, pageY, width, height), width).right == width - RightInset
    ensures pageY + MenuHeight <= height ==>
      DrawnMenu(MenuPosition(pageX, pageY, width, height), width).top == pageY + TopOffset
    ensures pageY + MenuHeight > height ==>
      DrawnMenu(MenuPosition(pageX, pageY, width, height), width).top == pageY - MenuHeight + TopOffset
    ensures pageY <= height && pageY + MenuHeight > height ==>
      DrawnMenu(MenuPosition(pageX, pageY, width, height), width).top <= height - (MenuHeight - TopOffset)
  {
  }
}
