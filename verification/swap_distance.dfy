/**
 * The swap-distance slider: a thumb dragged along a track of five stops (1 to 5). While
 * dragging, the thumb stays on the track; on release it snaps to the nearest stop and the
 * stop's distance is reported. Lengths are in pixels, as reals.
 */
module SwapDistance {
  import PostButton

  /** The horizontal padding the track leaves out of the window width. */
  const TrackInset: real := 80.0

  /** The number of gaps between the five stops. */
  const Gaps: real := 4.0

  /** `sliderWidth`. */
  function SliderWidth(windowWidth: real): real {
    windowWidth - TrackInset
  }

  /** `stepWidth`: the distance between neighbouring stops. */
  function StepWidth(sliderWidth: real): real {
    sliderWidth / Gaps
  }

  /** `Math.max(0, Math.min(sliderWidth, x))`. */
  function Clamp(x: real, sliderWidth: real): (r: real)
    requires sliderWidth > 0.0
    ensures 0.0 <= r <= sliderWidth
    ensures 0.0 <= x <= sliderWidth ==> r == x
    ensures x < 0.0 ==> r == 0.0
    ensures x > sliderWidth ==> r == sliderWidth
  {
    var m := if sliderWidth < x then sliderWidth else x;
    if 0.0 < m then m else 0.0
  }

  /** `Math.round`: the nearest integer, halves rounded up. */
  function Round(x: real): (n: int)
    ensures n as real - 0.5 <= x < n as real + 0.5
  {
    (x + 0.5).Floor
  }

  /** The distance between two points of the track. */
  function Dist(a: real, b: real): (d: real)
    ensures d >= 0.0 && (d == a - b || d == b - a)
  {
    if a >= b then a - b else b - a
  }

  /** No integer is closer to `x` than its rounding. */
  lemma RoundIsNearest(x: real, m: int)
    ensures Dist(x, m as real) >= Dist(x, Round(x) as real)
  {
    var n := Round(x);
    assert Dist(x, n as real) <= 0.5;
    if m < n {
      assert m as real <= n as real - 1.0;
      assert Dist(x, m as real) >= 0.5;
    } else if m > n {
      assert m as real >= n as real + 1.0;
      assert Dist(x, m as real) > 0.5;
    }
  }

  /** A point of the track lies between the first and the last stop, counted in steps. */
  lemma StepsOnTrack(c: real, sliderWidth: real)
    requires sliderWidth > 0.0 && 0.0 <= c <= sliderWidth
    ensures 0.0 <= c / StepWidth(sliderWidth) <= Gaps
  {
    var step := StepWidth(sliderWidth);
    assert step > 0.0;
    assert c / step == c * Gaps / sliderWidth;
    assert c * Gaps <= sliderWidth * Gaps;
  }

  /** Where the thumb sits for a distance: `(distance - 1) * stepWidth`. */
  function ThumbX(distance: int, stepWidth: real): real {
    (distance - 1) as real * stepWidth
  }

  /** `onPanResponderMove`: the thumb follows the finger from where the drag began, on the track. */
  function MoveThumb(startX: real, dx: real, sliderWidth: real): (x: real)
    requires sliderWidth > 0.0
    ensures 0.0 <= x <= sliderWidth
    ensures 0.0 <= startX + dx <= sliderWidth ==> x == startX + dx
  {
    Clamp(startX + dx, sliderWidth)
  }

  /** A release: the distance reported to `onDistanceChange` and the spot the thumb springs to. */
  datatype Snap = Snap(distance: int, thumbTo: real)

  /**
   * `onPanResponderRelease`: the clamped position is divided into steps, rounded, and
   * turned into a distance from 1 to 5; the thumb springs to that stop, which is the stop
   * nearest to where it was let go.
   */
  function Release(startX: real, dx: real, sliderWidth: real): (r: Snap)
    requires sliderWidth > 0.0
    ensures 1 <= r.distance <= 5
    ensures r.thumbTo == ThumbX(r.distance, StepWidth(sliderWidth))
    ensures
      var c := Clamp(startX + dx, sliderWidth);
      var stop := (r.distance - 1) as real;
      stop - 0.5 <= c / StepWidth(sliderWidth) < stop + 0.5
  {
    var c := Clamp(startX + dx, sliderWidth);
    StepsOnTrack(c, sliderWidth);
    var closestStep := Round(c / StepWidth(sliderWidth));
    Snap(closestStep + 1, closestStep as real * StepWidth(sliderWidth))
  }

  /** A release without any movement from a stop reports that stop's distance again. */
  lemma StillReleaseKeepsDistance(distance: int, sliderWidth: real)
    requires 1 <= distance <= 5 && sliderWidth > 0.0
    ensures Release(ThumbX(distance, StepWidth(sliderWidth)), 0.0, sliderWidth).distance == distance
  {
    var step := StepWidth(sliderWidth);
    var k := (distance - 1) as real;
    var x := ThumbX(distance, step);
    assert 0.0 < step && sliderWidth == 4.0 * step;
    assert 0.0 <= k <= 4.0;
    assert 0.0 <= x <= sliderWidth by {
      assert x == k * step;
      assert k * step <= 4.0 * step;
    }
    assert Clamp(x + 0.0, sliderWidth) == x;
    assert x / step == k;
    assert Round(k) == distance - 1;
  }

  /** Dragging further right never reports a shorter distance. */
  lemma ReleaseMonotone(startX: real, dx1: real, dx2: real, sliderWidth: real)
    requires sliderWidth > 0.0 && dx1 <= dx2
    ensures Release(startX, dx1, sliderWidth).distance <= Release(startX, dx2, sliderWidth).distance
  {
    var step := StepWidth(sliderWidth);
    var c1 := Clamp(startX + dx1, sliderWidth);
    var c2 := Clamp(startX + dx2, sliderWidth);
    assert c1 <= c2;
    assert c1 / step <= c2 / step;
  }

  /** The slider's state: the distance the wizard holds, and the one it held when mounted. */
  datatype Slider = Slider(mounted: int, distance: int)

  /**
   * A release as written: the pan responder is created once, inside `useRef`, so its grant
   * handler keeps computing the start from the distance the slider was mounted with.
   */
  function ReleaseAsWritten(s: Slider, dx: real, sliderWidth: real): (r: Slider)
    requires sliderWidth > 0.0
    ensures r.mounted == s.mounted
    ensures r.distance == Release(ThumbX(s.mounted, StepWidth(sliderWidth)), dx, sliderWidth).distance
  {
    s.(distance := Release(ThumbX(s.mounted, StepWidth(sliderWidth)), dx, sliderWidth).distance)
  }

  /**
   * Mounted at 4 and moved to 2, a tap on the thumb (no movement) jumps the distance
   * back to 4.
   */
  lemma StaleStartJumpsBack(sliderWidth: real)
    requires sliderWidth > 0.0
    ensures ReleaseAsWritten(Slider(4, 2), 0.0, sliderWidth).distance == 4
  {
    StillReleaseKeepsDistance(4, sliderWidth);
  }

  /** A release with the start taken from the distance currently held. */
  function ReleaseSlider(s: Slider, dx: real, sliderWidth: real): (r: Slider)
    requires sliderWidth > 0.0
    ensures r.mounted == s.mounted
    ensures r.distance == Release(ThumbX(s.distance, StepWidth(sliderWidth)), dx, sliderWidth).distance
    ensures 1 <= r.distance <= 5
  {
    s.(distance := Release(ThumbX(s.distance, StepWidth(sliderWidth)), dx, sliderWidth).distance)
  }

  /** With the current start, a tap keeps whatever distance is held. */
  lemma TapKeepsDistance(s: Slider, sliderWidth: real)
    requires sliderWidth > 0.0 && 1 <= s.distance <= 5
    ensures ReleaseSlider(s, 0.0, sliderWidth) == s
  {
    StillReleaseKeepsDistance(s.distance, sliderWidth);
  }

  /** Continue is never disabled on this step. */
  function ContinueFires(): (fires: bool)
    ensures fires
  {
    PostButton.Fires(false, false)
  }
}
