/**
 * The Home screen's card deck: a release of the drag is classified against a fixed
 * threshold, a committed swipe decides the card under the cursor (like or skip) and moves
 * the cursor on, and once the cursor has passed the last card the "No more trades" view
 * is shown. Only the decision logic is modelled; the card's animation is not.
 */
module SwipeDeck {
  import opened Options
  import opened JsText

  /** `SWIPE_THRESHOLD`, in pixels. */
  const SwipeThreshold: real := 120.0

  /** A trade's `id` is typed `string | number` by the screen's callbacks. */
  datatype TradeId = TextId(text: String) | NumberId(number: int)

  /** The fields of a trade the deck itself reads. */
  datatype Card = Card(id: TradeId)

  datatype Direction = Left | Right

  /** What letting go of the card does. */
  datatype Release = Commit(dir: Direction) | SnapBack

  /** The callback a finished swipe makes: `onLike` for right, `onSkip` for left. */
  datatype Decision = Like(id: TradeId) | Skip(id: TradeId)

  datatype Point = Point(x: real, y: real)

  const Origin: Point := Point(0.0, 0.0)

  /** `currentIndex` and the card's `position`. */
  datatype Deck = Deck(cursor: nat, offset: Point)

  /** The state the screen mounts with. */
  const InitialDeck: Deck := Deck(0, Origin)

  /**
   * `onPanResponderRelease`: strictly past the threshold to the right commits a like,
   * strictly past it to the left commits a skip, and anything in between (the threshold
   * itself included) springs back.
   */
  function ClassifyRelease(dx: real): (r: Release)
    ensures r == Commit(Right) <==> dx > SwipeThreshold
    ensures r == Commit(Left) <==> dx < -SwipeThreshold
    ensures r == SnapBack <==> -SwipeThreshold <= dx <= SwipeThreshold
  {
    if dx > SwipeThreshold then Commit(Right)
    else if dx < -SwipeThreshold then Commit(Left)
    else SnapBack
  }

  /** Left commits, snap-back and right commits, in the order of increasing `dx`. */
  function Rank(r: Release): int {
    match r
    case Commit(Left) => -1
    case SnapBack => 0
    case Commit(Right) => 1
  }

  /** Dragging further right never turns a decision towards the left. */
  lemma ClassifyMonotone(dx1: real, dx2: real)
    requires dx1 <= dx2
    ensures Rank(ClassifyRelease(dx1)) <= Rank(ClassifyRelease(dx2))
  {
  }

  /** The boundaries themselves snap back. */
  lemma ThresholdSnapsBack()
    ensures ClassifyRelease(SwipeThreshold) == SnapBack
    ensures ClassifyRelease(-SwipeThreshold) == SnapBack
    ensures ClassifyRelease(SwipeThreshold + 0.5) == Commit(Right)
    ensures ClassifyRelease(-SwipeThreshold - 0.5) == Commit(Left)
  {
  }

  function DecisionFor(card: Card, dir: Direction): (d: Decision)
    ensures d.id == card.id
    ensures d.Like? <==> dir == Right
  {
    match dir
    case Right => Like(card.id)
    case Left => Skip(card.id)
  }

  /** The deck after a swipe, and the one callback the swipe made. */
  datatype Swiped = Swiped(deck: Deck, decision: Decision)

  /**
   * `forceSwipe` followed by `onSwipeComplete`: decide `trades[currentIndex]` in the given
   * direction, put the card back at the origin and advance the cursor by one. The handler
   * does not check bounds; it is only reachable while a card is rendered, which is what
   * the precondition records.
   */
  function ForceSwipe(trades: seq<Card>, deck: Deck, dir: Direction): (r: Swiped)
    requires deck.cursor < |trades|
    ensures r.decision.id == trades[deck.cursor].id
    ensures r.decision.Like? <==> dir == Right
    ensures r.deck.cursor == deck.cursor + 1
    ensures r.deck.offset == Origin
  {
    Swiped(Deck(deck.cursor + 1, Origin), DecisionFor(trades[deck.cursor], dir))
  }

  /** What a release or a button press did: the new deck and the callback, if any. */
  datatype Outcome = Outcome(deck: Deck, decision: Option<Decision>)

  /** `onPanResponderMove`: the card follows the finger. */
  function Drag(deck: Deck, dx: real, dy: real): (r: Deck)
    ensures r.cursor == deck.cursor
    ensures r.offset == Point(dx, dy)
  {
    deck.(offset := Point(dx, dy))
  }

  /**
   * The release of a drag on the top card, with `currentIndex` read afresh. A snap-back
   * makes no callback and springs the card back to the origin.
   */
  function LetGo(trades: seq<Card>, deck: Deck, dx: real): (r: Outcome)
    requires deck.cursor < |trades|
    ensures ClassifyRelease(dx) == SnapBack ==> r == Outcome(deck.(offset := Origin), None)
    ensures ClassifyRelease(dx).Commit? ==>
      var s := ForceSwipe(trades, deck, ClassifyRelease(dx).dir);
      r == Outcome(s.deck, Some(s.decision))
  {
    match ClassifyRelease(dx)
    case SnapBack => Outcome(deck.(offset := Origin), None)
    case Commit(dir) =>
      var s := ForceSwipe(trades, deck, dir);
      Outcome(s.deck, Some(s.decision))
  }

  /** The heart (right) and cross (left) buttons on the top card both call `forceSwipe`. */
  function PressButton(trades: seq<Card>, deck: Deck, dir: Direction): (r: Outcome)
    requires deck.cursor < |trades|
    ensures r.decision.Some? && r.decision.value.id == trades[deck.cursor].id
    ensures r.decision.value.Like? <==> dir == Right
    ensures r.deck == Deck(deck.cursor + 1, Origin)
  {
    var s := ForceSwipe(trades, deck, dir);
    Outcome(s.deck, Some(s.decision))
  }

  /** A button press has exactly the effect of a gesture released past the threshold. */
  lemma ButtonIsGesture(trades: seq<Card>, deck: Deck, dx: real)
    requires deck.cursor < |trades|
    ensures dx > SwipeThreshold ==> PressButton(trades, deck, Right) == LetGo(trades, deck, dx)
    ensures dx < -SwipeThreshold ==> PressButton(trades, deck, Left) == LetGo(trades, deck, dx)
  {
  }

  /** How `renderCard` treats the card at `index`. */
  datatype CardView =
    | Gone      // already decided: `null`
    | Top       // the card under the cursor, with the pan handlers and the buttons
    | Waiting   // not reached yet: nothing is returned

  function RenderCard(index: nat, cursor: nat): (v: CardView)
    ensures v == Top <==> index == cursor
    ensures v == Gone <==> index < cursor
  {
    if index < cursor then Gone
    else if index == cursor then Top
    else Waiting
  }

  /** The "No more trades available" view. */
  predicate ShowNoMore(trades: seq<Card>, deck: Deck) {
    deck.cursor >= |trades|
  }

  /**
   * The "No more trades" view is shown exactly when no card carries the handlers, and
   * otherwise exactly one card does: the one under the cursor.
   */
  lemma NoMoreIffNoTopCard(trades: seq<Card>, deck: Deck)
    ensures ShowNoMore(trades, deck) <==> forall i :: 0 <= i < |trades| ==> RenderCard(i, deck.cursor) != Top
    ensures !ShowNoMore(trades, deck) ==>
      forall i :: 0 <= i < |trades| && RenderCard(i, deck.cursor) == Top ==> i == deck.cursor
  {
    if !ShowNoMore(trades, deck) {
      assert RenderCard(deck.cursor, deck.cursor) == Top;
    }
  }

  /** One user action on the deck. */
  datatype Event =
    | Move(dx: real, dy: real)
    | Lift(dx: real)
    | Press(dir: Direction)

  /** The deck after a run of actions, and every callback made along the way. */
  datatype Run = Run(deck: Deck, decisions: seq<Decision>)

  /**
   * One action on the top card: a drag moves it, a release may swipe it away, a button
   * always does. A callback is about the top card and moves the cursor on by one.
   */
  function Respond(trades: seq<Card>, deck: Deck, e: Event): (r: Outcome)
    requires deck.cursor < |trades|
    ensures r.decision.Some? ==> r.deck.cursor == deck.cursor + 1 && r.decision.value.id == trades[deck.cursor].id
    ensures r.decision.None? ==> r.deck.cursor == deck.cursor
    ensures e.Move? ==> r.decision.None?
    ensures e.Press? ==> r.decision.Some?
  {
    match e
    case Move(dx, dy) => Outcome(Drag(deck, dx, dy), None)
    case Lift(dx) => LetGo(trades, deck, dx)
    case Press(dir) => PressButton(trades, deck, dir)
  }

  /** The callbacks an outcome made, as a list. */
  function Made(out: Outcome): (ds: seq<Decision>)
    ensures |ds| <= 1 && (ds == [] <==> out.decision.None?)
  {
    match out.decision
    case Some(d) => [d]
    case None => []
  }

  /**
   * A run of user actions. Once the cursor has passed the last card no card is rendered,
   * so there is nothing to drag or press and the remaining actions do nothing.
   */
  function Play(trades: seq<Card>, deck: Deck, events: seq<Event>): (r: Run)
    decreases |events|
  {
    if events == [] || deck.cursor >= |trades| then Run(deck, [])
    else
      var out := Respond(trades, deck, events[0]);
      var rest := Play(trades, out.deck, events[1..]);
      Run(rest.deck, Made(out) + rest.decisions)
  }

  /** The `k`-th decision of a run is about the card `k` places after the starting cursor. */
  ghost predicate DecidesInOrder(trades: seq<Card>, start: nat, decisions: seq<Decision>) {
    && start + |decisions| <= |trades|
    && forall k :: 0 <= k < |decisions| ==> decisions[k].id == trades[start + k].id
  }

  /** A decision about the card at `start`, then decisions in order from the next card. */
  lemma PrependInOrder(trades: seq<Card>, start: nat, d: Decision, rest: seq<Decision>)
    requires start < |trades| && d.id == trades[start].id
    requires DecidesInOrder(trades, start + 1, rest)
    ensures DecidesInOrder(trades, start, [d] + rest)
  {
    var ds := [d] + rest;
    forall k | 0 <= k < |ds|
      ensures ds[k].id == trades[start + k].id
    {
      if k > 0 {
        assert ds[k] == rest[k - 1];
      }
    }
  }

  /**
   * Over any run: the cursor never moves back, it moves by exactly the number of callbacks
   * made, it never passes the end of the list, and the callbacks decide the cards one
   * after another in list order, so no card is decided twice and none is skipped.
   */
  lemma {:induction false} PlayDecidesInOrder(trades: seq<Card>, deck: Deck, events: seq<Event>)
    requires deck.cursor <= |trades|
    ensures Play(trades, deck, events).deck.cursor == deck.cursor + |Play(trades, deck, events).decisions|
    ensures Play(trades, deck, events).deck.cursor <= |trades|
    ensures DecidesInOrder(trades, deck.cursor, Play(trades, deck, events).decisions)
    decreases |events|
  {
    if events != [] && deck.cursor < |trades| {
      var out := Respond(trades, deck, events[0]);
      PlayDecidesInOrder(trades, out.deck, events[1..]);
      var rest := Play(trades, out.deck, events[1..]);
      if out.decision.Some? {
        PrependInOrder(trades, deck.cursor, out.decision.value, rest.decisions);
      }
    }
  }

  /** Three cards, like the first, skip the second, like the third: then the deck is empty. */
  lemma ThreeCardScenario(a: TradeId, b: TradeId, c: TradeId)
    ensures
      var trades := [Card(a), Card(b), Card(c)];
      var run := Play(trades, InitialDeck, [Lift(150.0), Lift(-200.0), Press(Right)]);
      && run.decisions == [Like(a), Skip(b), Like(c)]
      && run.deck == Deck(3, Origin)
      && ShowNoMore(trades, run.deck)
  {
    var trades := [Card(a), Card(b), Card(c)];
    var d1 := Deck(1, Origin);
    var d2 := Deck(2, Origin);
    var d3 := Deck(3, Origin);
    assert Play(trades, d3, []) == Run(d3, []);
    assert Play(trades, d2, [Press(Right)]) == Run(d3, [Like(c)]);
    assert Play(trades, d1, [Lift(-200.0), Press(Right)]) == Run(d3, [Skip(b), Like(c)]);
  }

  // ---------------------------------------------------------------------------
  // The gesture path as written: the pan responder is created once, inside `useRef`, so
  // its release handler keeps calling the `forceSwipe` of the first render, whose
  // `onSwipeComplete` reads the first render's `currentIndex`, which is 0.
  // ---------------------------------------------------------------------------

  /** A release as the mounted pan responder performs it: always about `trades[0]`. */
  function LetGoAsWritten(trades: seq<Card>, deck: Deck, dx: real): (r: Outcome)
    requires deck.cursor < |trades|
    ensures ClassifyRelease(dx).Commit? ==>
      && r.decision.Some? && r.decision.value.id == trades[0].id
      && r.deck.cursor == 1
    ensures ClassifyRelease(dx) == SnapBack ==> r == LetGo(trades, deck, dx)
  {
    match ClassifyRelease(dx)
    case SnapBack => Outcome(deck.(offset := Origin), None)
    case Commit(dir) =>
      var s := ForceSwipe(trades, InitialDeck, dir);
      Outcome(s.deck, Some(s.decision))
  }

  /**
   * With two cards, a like by gesture on each decides the first card twice and never
   * reaches the second, while the corrected release decides both in turn.
   */
  lemma StaleGestureRepeatsFirstCard(a: TradeId, b: TradeId)
    requires a != b
    ensures
      var trades := [Card(a), Card(b)];
      var first := LetGoAsWritten(trades, InitialDeck, 150.0);
      var second := LetGoAsWritten(trades, first.deck, 150.0);
      && first.decision == Some(Like(a)) && second.decision == Some(Like(a))
      && second.deck.cursor == 1
      && LetGo(trades, first.deck, 150.0).decision == Some(Like(b))
  {
  }
}
